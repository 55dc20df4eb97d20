/** Physical pages, Sv39 page tables and who owns each page: the memory that
    kernel/vm.c and kernel/kalloc.c work on, as a value, and the few updates those
    files make to it.

    A page is named by its page number.  `own` says what each page is used for, so a
    page has exactly one use by construction; the predicates below tie that record
    to the words actually stored in memory. */
module PageMem {

  const NPTE := 512
  const MAXPN := 0x400_0000   // MAXVA / PGSIZE

  // ---------- words ----------

  datatype Flags = Flags(r: bool, w: bool, x: bool, u: bool)

  /** A 64-bit word of a page: zero, a page-table entry with PTE_V set, the link of
      the free list, or kalloc's and kfree's fill. */
  datatype Word = Zero | Entry(ppn: int, flags: Flags) | Link(addr: int) | Junk(fill: int)

  /** PTE_V is set; the junk fills are odd numbers. */
  predicate V(e: Word) { e.Entry? || e.Junk? }

  predicate Rwx(f: Flags) { f.r || f.w || f.x }

  const NOFLAGS := Flags(false, false, false, false)

  /** PA2PTE(pa) | perm | PTE_V as a number. */
  function Bits(e: Word): nat
    requires e.Entry? && 0 <= e.ppn
  {
    e.ppn * 1024 + 1 + (if e.flags.r then 2 else 0) + (if e.flags.w then 4 else 0)
    + (if e.flags.x then 8 else 0) + (if e.flags.u then 16 else 0)
  }

  /** PTE2PA(pte) >> 12 and the flag bits 1 to 4 of pte, each one more shift away. */
  function FromBits(n: nat): Word {
    if n % 2 == 0 then Zero
    else
      var b1 := n / 2;
      var b2 := b1 / 2;
      var b3 := b2 / 2;
      Entry(n / 1024, Flags(b1 % 2 == 1, b2 % 2 == 1, b3 % 2 == 1, b3 / 2 % 2 == 1))
  }

  lemma Halve(n: int, q: int, b: bool)
    requires n == 2 * q + (if b then 1 else 0)
    ensures n / 2 == q && (n % 2 == 1 <==> b)
  {}

  /** Packing an entry into a word and taking it apart again gives the entry back. */
  lemma BitsRoundTrip(e: Word)
    requires e.Entry? && 0 <= e.ppn
    ensures FromBits(Bits(e)) == e && Bits(e) % 2 == 1
  {
    var f := e.flags;
    var b4 := e.ppn * 64 + (if f.u then 1 else 0);
    var b3 := b4 * 2 + (if f.x then 1 else 0);
    var b2 := b3 * 2 + (if f.w then 1 else 0);
    var b1 := b2 * 2 + (if f.r then 1 else 0);
    Halve(Bits(e), b1, true);
    Halve(b1, b2, f.r);
    Halve(b2, b3, f.w);
    Halve(b3, b4, f.x);
    Halve(b4, e.ppn * 32, f.u);
  }

  type Page = p: seq<Word> | |p| == NPTE witness seq(NPTE, _ => Zero)

  /** memset of a whole page. */
  function Fill(w: Word): (p: Page)
    ensures forall i :: 0 <= i < NPTE ==> p[i] == w
  { seq(NPTE, _ => w) }

  const ALLOC_JUNK := Junk(5)
  const FREE_JUNK := Junk(1)

  // ---------- the three-level tree ----------

  /** A table page: the root of tree r, or the table that entry i (and j) leads to. */
  datatype Node = L2(r: int) | L1(r: int, i: int) | L0(r: int, i: int, j: int)

  function Child(n: Node, i: nat): Node
    requires !n.L0?
  { if n.L2? then L1(n.r, i) else L0(n.r, n.i, i) }

  /** PX(level, va) for the page numbered v. */
  function I2(v: int): int { v / 262144 }
  function I1(v: int): int { v / 512 % 512 }
  function I0(v: int): int { v % 512 }

  function LeafTable(r: int, v: int): Node { L0(r, I2(v), I1(v)) }

  /** The three indices are the digits of the page number to the base NPTE. */
  lemma IndicesCompose(v: int)
    ensures v == (I2(v) * NPTE + I1(v)) * NPTE + I0(v) && 0 <= I1(v) < NPTE && 0 <= I0(v) < NPTE
  {
    assert v / 512 / 512 == v / 262144;
  }

  /** Different page numbers below MAXVA never share all three indices. */
  lemma IndicesInjective(v: int, w: int)
    ensures I2(v) == I2(w) && I1(v) == I1(w) && I0(v) == I0(w) ==> v == w
    ensures 0 <= v < MAXPN ==> 0 <= I2(v) < NPTE
  {
    IndicesCompose(v);
    IndicesCompose(w);
  }

  // ---------- memory ----------

  /** Busy: allocated, but neither a table nor the leaf of a mapping that owns it. */
  datatype Owner = Free | Table(n: Node) | Leaf(r: int, v: int) | Busy

  /** Page v of tree r. */
  datatype Va = Va(r: int, v: int)

  /** `fs` is the free list, as a stack with its top last, and `pos` the place of each
      free page in it; `tbl` says which page each table of each tree is; `tr` is the
      flat map that the tables implement: the valid entry of every mapped page. */
  datatype Mem = Mem(pages: seq<Page>, own: seq<Owner>, fs: seq<int>, pos: seq<int>, tbl: map<Node, int>, tr: map<Va, Word>)

  ghost predicate Sized(m: Mem) {
    |m.pages| == |m.own| == |m.pos| > 0 && m.own[0] == Busy   // page 0 is never handed out
  }

  predicate Has(m: Mem, p: int) { 0 <= p < |m.own| }

  /** The address of page i of a list, or the null pointer outside it. */
  function AddrAt(fs: seq<int>, i: int): int { if 0 <= i < |fs| then fs[i] * 4096 else 0 }

  /** What kmem.freelist holds: the list's top is its last element. */
  function Top(fs: seq<int>): int { AddrAt(fs, |fs| - 1) }

  /** The free list is threaded through the first words of exactly the free pages. */
  ghost predicate FreeOk(m: Mem)
    requires Sized(m)
  {
    && (forall i {:trigger m.fs[i]} :: 0 <= i < |m.fs| ==>
          Has(m, m.fs[i]) && m.own[m.fs[i]] == Free && m.pos[m.fs[i]] == i)
    && (forall p {:trigger m.own[p]} :: 0 <= p < |m.own| && m.own[p] == Free ==>
          0 <= m.pos[p] < |m.fs| && m.fs[m.pos[p]] == p)
    && (forall p {:trigger m.pages[p]} :: 0 <= p < |m.own| && m.own[p] == Free ==>
          m.pages[p][0] == Link(AddrAt(m.fs, m.pos[p] - 1)))
  }

  ghost predicate NodeOk(m: Mem, n: Node)
    requires n in m.tbl
  {
    match n
    case L2(r) => m.tbl[n] == r
    case L1(r, i) => L2(r) in m.tbl && 0 <= i < NPTE
    case L0(r, i, j) => L1(r, i) in m.tbl && 0 <= i < NPTE && 0 <= j < NPTE
  }

  /** Each table page belongs to one place of one tree. */
  ghost predicate TblOk(m: Mem) {
    && (forall n :: n in m.tbl ==> Has(m, m.tbl[n]) && m.own[m.tbl[n]] == Table(n) && NodeOk(m, n))
    && (forall p :: 0 <= p < |m.own| && m.own[p].Table? ==> m.own[p].n in m.tbl && m.tbl[m.own[p].n] == p)
  }

  /** Entry i of table n: upper entries lead to the child table and carry no R, W or
      X bit; a valid bottom entry carries one. */
  ghost predicate EntryOk(m: Mem, n: Node, i: nat)
    requires n in m.tbl && 0 <= m.tbl[n] < |m.pages| && i < NPTE
  {
    var e := m.pages[m.tbl[n]][i];
    if n.L0? then V(e) ==> e.Entry? && Rwx(e.flags)
    else (V(e) <==> Child(n, i) in m.tbl) && (V(e) ==> e == Entry(m.tbl[Child(n, i)], NOFLAGS))
  }

  ghost predicate EntriesOk(m: Mem) {
    forall n, i :: n in m.tbl && 0 <= m.tbl[n] < |m.pages| && 0 <= i < NPTE ==> EntryOk(m, n, i)
  }

  /** The entry for page v of tree r; Zero where there is no bottom table. */
  ghost function Pte(m: Mem, r: int, v: int): Word {
    var n := LeafTable(r, v);
    if n in m.tbl && 0 <= m.tbl[n] < |m.pages| then m.pages[m.tbl[n]][I0(v)] else Zero
  }

  /** The three-level tables and the flat map agree on every page of every tree. */
  ghost predicate TrOk(m: Mem) {
    forall r, v {:trigger Pte(m, r, v)} ::
      (V(Pte(m, r, v)) <==> Va(r, v) in m.tr) && (V(Pte(m, r, v)) ==> m.tr[Va(r, v)] == Pte(m, r, v))
  }

  /** A page owned by a mapping is what that mapping translates to. */
  ghost predicate LeafOk(m: Mem) {
    forall p :: 0 <= p < |m.own| && m.own[p].Leaf? ==> Maps(m.tr, m.own[p].r, m.own[p].v, p)
  }

  predicate Maps(tr: map<Va, Word>, r: int, v: int, p: int) {
    Va(r, v) in tr && tr[Va(r, v)].Entry? && tr[Va(r, v)].ppn == p
  }

  ghost predicate Wf(m: Mem) {
    Sized(m) && FreeOk(m) && TblOk(m) && EntriesOk(m) && TrOk(m) && LeafOk(m)
  }

  /** Page v of tree r is mapped to a page that belongs to that mapping. */
  ghost predicate OwnedLeaf(m: Mem, r: int, v: int) {
    Va(r, v) in m.tr && m.tr[Va(r, v)].Entry? && Has(m, m.tr[Va(r, v)].ppn) && m.own[m.tr[Va(r, v)].ppn] == Leaf(r, v)
  }

  /** The two pages at the top of every user tree, TRAMPOLINE and TRAPFRAME, whose frames are
      not the tree's own. */
  predicate Special(v: int) { v == MAXPN - 1 || v == MAXPN - 2 }

  /** Every other mapped page leads to a frame that belongs to that mapping alone. */
  ghost predicate Owned(m: Mem) {
    forall a: Va :: a in m.tr && !Special(a.v) ==> OwnedLeaf(m, a.r, a.v)
  }

  lemma OwnedKept(m: Mem, m': Mem)
    requires Owned(m) && |m'.own| == |m.own| && m'.tr == m.tr
    requires forall p :: 0 <= p < |m.own| && m.own[p].Leaf? ==> m'.own[p] == m.own[p]
    ensures Owned(m')
  {
    forall a: Va | a in m'.tr && !Special(a.v) ensures OwnedLeaf(m', a.r, a.v) { assert OwnedLeaf(m, a.r, a.v); }
  }

  /** No page of a user tree leads to p, but for the two at the top. */
  ghost predicate Unreferenced(m: Mem, p: int) { forall a: Va :: a in m.tr && !Special(a.v) ==> LeadsElsewhere(m, p, a) }

  ghost predicate LeadsElsewhere(m: Mem, p: int, a: Va)
    requires a in m.tr
  { m.tr[a].Entry? ==> m.tr[a].ppn != p }

  /** A page that is neither a leaf's nor free nor a table can be freed. */
  lemma BusyUnmapped(m: Mem, p: int)
    requires Owned(m) && Has(m, p) && m.own[p] == Busy
    ensures Unreferenced(m, p)
  {
    forall a: Va | a in m.tr && !Special(a.v) ensures LeadsElsewhere(m, p, a) { assert OwnedLeaf(m, a.r, a.v); }
  }

  // ---------- what a change leaves alone ----------

  /** Pages that hold tables are unchanged, so is every entry. */
  lemma TablesKept(m: Mem, m': Mem)
    requires Sized(m) && Sized(m') && TblOk(m) && EntriesOk(m) && m'.tbl == m.tbl && |m'.own| == |m.own|
    requires forall p :: 0 <= p < |m.own| && m.own[p].Table? ==> m'.pages[p] == m.pages[p] && m'.own[p] == m.own[p]
    requires forall p :: 0 <= p < |m.own| && m'.own[p].Table? ==> m.own[p] == m'.own[p]
    requires TrOk(m) && m'.tr == m.tr
    ensures TblOk(m') && EntriesOk(m') && TrOk(m')
  {
    forall n | n in m'.tbl ensures Has(m', m'.tbl[n]) && m'.own[m'.tbl[n]] == Table(n) && NodeOk(m', n) {
      assert NodeOk(m, n);
    }
    forall n, i | n in m'.tbl && 0 <= m'.tbl[n] < |m'.pages| && 0 <= i < NPTE ensures EntryOk(m', n, i) {
      assert EntryOk(m, n, i);
    }
    forall r, v ensures Pte(m', r, v) == Pte(m, r, v) {}
  }

  /** Free pages are unchanged, so is the free list. */
  lemma FreeKept(m: Mem, m': Mem)
    requires Sized(m) && Sized(m') && FreeOk(m) && m'.fs == m.fs && m'.pos == m.pos && |m'.own| == |m.own|
    requires forall p :: 0 <= p < |m.own| && m.own[p] == Free ==> m'.pages[p] == m.pages[p]
    requires forall p :: 0 <= p < |m.own| ==> (m'.own[p] == Free <==> m.own[p] == Free)
    ensures FreeOk(m')
  {}

  // ---------- kalloc and kfree ----------

  function Last(fs: seq<int>): int
    requires fs != []
  { fs[|fs| - 1] }

  function Pop(m: Mem): Mem
    requires m.fs != [] && Has(m, Last(m.fs)) && |m.pages| == |m.own|
  {
    m.(fs := m.fs[..|m.fs| - 1], own := m.own[Last(m.fs) := Busy], pages := m.pages[Last(m.fs) := Fill(ALLOC_JUNK)])
  }

  lemma PopFree(m: Mem)
    requires Sized(m) && FreeOk(m) && m.fs != []
    ensures Has(m, Last(m.fs)) && m.own[Last(m.fs)] == Free
    ensures Sized(Pop(m)) && FreeOk(Pop(m)) && m.pages[Last(m.fs)][0] == Link(Top(Pop(m).fs))
  {}

  lemma PopOk(m: Mem)
    requires Wf(m) && m.fs != []
    ensures Has(m, Last(m.fs)) && m.own[Last(m.fs)] == Free && m.pages[Last(m.fs)][0] == Link(Top(Pop(m).fs))
    ensures Wf(Pop(m))
  {
    PopFree(m);
    TablesKept(m, Pop(m));
  }

  /** Page p goes on top of the free list. */
  function Push(m: Mem, p: int): Mem
    requires Has(m, p) && |m.pages| == |m.own| == |m.pos|
  {
    m.(fs := m.fs + [p], pos := m.pos[p := |m.fs|], own := m.own[p := Free],
       pages := m.pages[p := Fill(FREE_JUNK)[0 := Link(Top(m.fs))]])
  }

  lemma PushFree(m: Mem, p: int)
    requires Sized(m) && FreeOk(m) && 0 < p < |m.own| && m.own[p] != Free
    ensures Sized(Push(m, p)) && FreeOk(Push(m, p))
  {}

  lemma PushOk(m: Mem, p: int)
    requires Wf(m) && 0 < p < |m.own| && (m.own[p].Busy? || m.own[p].Leaf?)
    ensures Wf(Push(m, p))
  {
    PushFree(m, p);
    TablesKept(m, Push(m, p));
  }

  // ---------- a new table page ----------

  /** Busy page p becomes the table that entry i of n leads to. */
  function AddTable(m: Mem, n: Node, i: nat, p: int): Mem
    requires n in m.tbl && !n.L0? && i < NPTE && Has(m, m.tbl[n]) && Has(m, p) && |m.pages| == |m.own|
  {
    m.(pages := m.pages[p := Fill(Zero)][m.tbl[n] := m.pages[m.tbl[n]][i := Entry(p, NOFLAGS)]],
       own := m.own[p := Table(Child(n, i))], tbl := m.tbl[Child(n, i) := p])
  }

  lemma AddTableEntry(m: Mem, n: Node, i: nat, p: int, x: Node, k: nat)
    requires Sized(m) && n in m.tbl && !n.L0? && i < NPTE && Child(n, i) !in m.tbl && Has(m, m.tbl[n]) && Has(m, p) && m.tbl[n] != p
    requires x in m.tbl && Has(m, m.tbl[x]) && m.tbl[x] != p && (m.tbl[x] == m.tbl[n] ==> x == n)
    requires k < NPTE && EntryOk(m, x, k)
    ensures EntryOk(AddTable(m, n, i, p), x, k)
  {
    var m' := AddTable(m, n, i, p);
    if x == n && k == i {
      assert m'.pages[m.tbl[x]][k] == Entry(p, NOFLAGS);
    } else {
      assert m'.pages[m.tbl[x]][k] == m.pages[m.tbl[x]][k];
    }
  }

  lemma AddTableEntries(m: Mem, n: Node, i: nat, p: int)
    requires Sized(m) && TblOk(m) && EntriesOk(m) && n in m.tbl && !n.L0? && i < NPTE && Child(n, i) !in m.tbl
    requires Has(m, p) && m.own[p] == Busy && TrOk(m)
    ensures EntriesOk(AddTable(m, n, i, p)) && TrOk(AddTable(m, n, i, p))
  {
    var m' := AddTable(m, n, i, p);
    forall x, k | x in m'.tbl && 0 <= m'.tbl[x] < |m'.pages| && 0 <= k < NPTE ensures EntryOk(m', x, k) {
      if x == Child(n, i) {
        assert m'.pages[p][k] == Zero;
        assert !x.L0? ==> Child(x, k) !in m.tbl;
      } else {
        assert m.own[m.tbl[x]] == Table(x);
        AddTableEntry(m, n, i, p, x, k);
      }
    }
    forall r, v ensures Pte(m', r, v) == Pte(m, r, v) {
      var x := LeafTable(r, v);
      if x in m.tbl { assert m.own[m.tbl[x]] == Table(x); }
      else if x == Child(n, i) { assert m'.pages[p][I0(v)] == Zero; }
    }
  }

  lemma AddTableOk(m: Mem, n: Node, i: nat, p: int)
    requires Wf(m) && n in m.tbl && !n.L0? && i < NPTE && Child(n, i) !in m.tbl
    requires 0 < p < |m.own| && m.own[p] == Busy
    ensures Wf(AddTable(m, n, i, p))
  {
    var m' := AddTable(m, n, i, p);
    AddTableEntries(m, n, i, p);
    assert m.own[m.tbl[n]] == Table(n) && NodeOk(m, n);
    AddTableTbl(m, n, i, p);
    FreeKept(m, m');
  }

  lemma AddTableTbl(m: Mem, n: Node, i: nat, p: int)
    requires Sized(m) && TblOk(m) && n in m.tbl && !n.L0? && i < NPTE && Child(n, i) !in m.tbl
    requires Has(m, p) && m.own[p] == Busy
    ensures TblOk(AddTable(m, n, i, p))
  {
    var m' := AddTable(m, n, i, p);
    forall x | x in m'.tbl ensures Has(m', m'.tbl[x]) && m'.own[m'.tbl[x]] == Table(x) && NodeOk(m', x) {
      if x in m.tbl { assert NodeOk(m, x); } else { assert NodeOk(m, n); }
    }
  }

  // ---------- a bottom entry ----------

  /** The entry for page v of tree r becomes e. */
  function SetPte(m: Mem, r: int, v: int, e: Word): Mem
    requires LeafTable(r, v) in m.tbl && 0 <= m.tbl[LeafTable(r, v)] < |m.pages|
  {
    var q := m.tbl[LeafTable(r, v)];
    m.(pages := m.pages[q := m.pages[q][I0(v) := e]], tr := if V(e) then m.tr[Va(r, v) := e] else m.tr - {Va(r, v)})
  }

  lemma SetPteEntries(m: Mem, r: int, v: int, e: Word)
    requires Sized(m) && TblOk(m) && EntriesOk(m) && LeafTable(r, v) in m.tbl && (V(e) ==> e.Entry? && Rwx(e.flags))
    ensures EntriesOk(SetPte(m, r, v, e))
  {
    var n := LeafTable(r, v);
    var m' := SetPte(m, r, v, e);
    forall x, k | x in m'.tbl && 0 <= m'.tbl[x] < |m'.pages| && 0 <= k < NPTE ensures EntryOk(m', x, k) {
      assert EntryOk(m, x, k);
      if m.tbl[x] == m.tbl[n] { assert x == n; }
    }
  }

  lemma SetPteTr(m: Mem, r: int, v: int, e: Word)
    requires Sized(m) && TblOk(m) && TrOk(m) && LeafTable(r, v) in m.tbl
    ensures TrOk(SetPte(m, r, v, e))
  {
    var n := LeafTable(r, v);
    var m' := SetPte(m, r, v, e);
    forall r', v' {:trigger Pte(m', r', v')} | r' != r || v' != v ensures Pte(m', r', v') == Pte(m, r', v') {
      IndicesInjective(v, v');
      var x := LeafTable(r', v');
      if x in m.tbl && m.tbl[x] == m.tbl[n] { assert m.own[m.tbl[x]] == Table(x); }
    }
  }

  lemma SetPteOk(m: Mem, r: int, v: int, e: Word)
    requires Wf(m) && LeafTable(r, v) in m.tbl && (V(e) ==> e.Entry? && Rwx(e.flags))
    requires forall p :: 0 <= p < |m.own| ==> m.own[p] != Leaf(r, v)
    ensures Wf(SetPte(m, r, v, e))
  {
    var m' := SetPte(m, r, v, e);
    SetPteEntries(m, r, v, e);
    SetPteTr(m, r, v, e);
    assert m.own[m.tbl[LeafTable(r, v)]] == Table(LeafTable(r, v));
    FreeKept(m, m');
    forall n | n in m'.tbl ensures NodeOk(m', n) { assert NodeOk(m, n); }
  }

  // ---------- what an operation may change ----------

  /** Page p in m': a free page may have become a table of tree r, tables may have
      changed, any other page keeps its use and its contents. */
  ghost predicate PageKept(m: Mem, m': Mem, r: int, p: int)
    requires 0 <= p < |m.own| == |m'.own| == |m.pages| == |m'.pages|
  {
    match m.own[p]
    case Free => m'.own[p].Free? || (m'.own[p].Table? && m'.own[p].n.r == r)
    case Table(_) => m'.own[p] == m.own[p]
    case _ => m'.own[p] == m.own[p] && m'.pages[p] == m.pages[p]
  }

  /** From m to m' only tables of tree r were added and entries changed. */
  ghost predicate Grew(m: Mem, m': Mem, r: int) {
    && |m.own| == |m'.own| == |m.pages| == |m'.pages|
    && (forall p :: 0 <= p < |m.own| ==> PageKept(m, m', r, p))
    && (forall n :: n in m.tbl ==> n in m'.tbl && m'.tbl[n] == m.tbl[n])
    && (forall n :: n in m'.tbl && n !in m.tbl ==> n.r == r)
  }

  lemma GrewTrans(a: Mem, b: Mem, c: Mem, r: int)
    requires Grew(a, b, r) && Grew(b, c, r)
    ensures Grew(a, c, r)
  {
    forall p | 0 <= p < |a.own| ensures PageKept(a, c, r, p) {
      assert PageKept(a, b, r, p) && PageKept(b, c, r, p);
    }
  }

  /** kalloc and then use as a table. */
  function NewTable(m: Mem, n: Node, i: nat): Mem
    requires m.fs != [] && Has(m, Last(m.fs)) && |m.pages| == |m.own|
    requires n in m.tbl && !n.L0? && i < NPTE && Has(m, m.tbl[n])
  { AddTable(Pop(m), n, i, Last(m.fs)) }

  lemma NewTableOk(m: Mem, n: Node, i: nat)
    requires Wf(m) && m.fs != [] && n in m.tbl && !n.L0? && i < NPTE && Child(n, i) !in m.tbl
    ensures Has(m, Last(m.fs)) && Wf(NewTable(m, n, i)) && Grew(m, NewTable(m, n, i), n.r)
  {
    PopOk(m);
    AddTableOk(Pop(m), n, i, Last(m.fs));
    NewTableGrew(m, n, i);
  }

  lemma NewTableGrew(m: Mem, n: Node, i: nat)
    requires Sized(m) && TblOk(m) && n in m.tbl && !n.L0? && i < NPTE && Child(n, i) !in m.tbl
    requires m.fs != [] && Has(m, Last(m.fs)) && m.own[Last(m.fs)] == Free
    ensures Grew(m, NewTable(m, n, i), n.r)
  {
    assert m.own[m.tbl[n]] == Table(n);
    forall p | 0 <= p < |m.own| ensures PageKept(m, NewTable(m, n, i), n.r, p) {}
  }

  lemma SetPteGrew(m: Mem, r: int, v: int, e: Word)
    requires Sized(m) && TblOk(m) && LeafTable(r, v) in m.tbl
    ensures Grew(m, SetPte(m, r, v, e), r)
  {
    assert m.own[m.tbl[LeafTable(r, v)]] == Table(LeafTable(r, v));
    forall p | 0 <= p < |m.own| ensures PageKept(m, SetPte(m, r, v, e), r, p) {}
  }

  // ---------- ranges of translations ----------

  /** tr' maps pages [first, first + n) of tree r to pages ppn, ppn + 1, ... and is tr
      everywhere else. */
  ghost predicate Mapped(tr: map<Va, Word>, tr': map<Va, Word>, r: int, first: int, n: int, ppn: int, perm: Flags) {
    forall a: Va :: MappedAt(tr, tr', r, first, n, ppn, perm, a)
  }

  ghost predicate MappedAt(tr: map<Va, Word>, tr': map<Va, Word>, r: int, first: int, n: int, ppn: int, perm: Flags, a: Va) {
    if a.r == r && first <= a.v < first + n then a in tr' && tr'[a] == Entry(ppn + a.v - first, perm) else Same(tr, tr', a)
  }

  /** tr' has no page of [first, first + n) of tree r and is tr everywhere else. */
  ghost predicate Unmapped(tr: map<Va, Word>, tr': map<Va, Word>, r: int, first: int, n: int) {
    && (forall v :: first <= v < first + n ==> Va(r, v) !in tr')
    && (forall a: Va :: a.r != r || a.v < first || first + n <= a.v ==> Same(tr, tr', a))
  }

  ghost predicate Same(tr: map<Va, Word>, tr': map<Va, Word>, a: Va) {
    (a in tr' <==> a in tr) && (a in tr ==> tr'[a] == tr[a])
  }

  lemma MappedNext(tr: map<Va, Word>, tr': map<Va, Word>, r: int, first: int, n: nat, ppn: int, perm: Flags)
    requires Mapped(tr, tr', r, first, n, ppn, perm)
    ensures Mapped(tr, tr'[Va(r, first + n) := Entry(ppn + n, perm)], r, first, n + 1, ppn, perm)
  {
    var t, k := tr'[Va(r, first + n) := Entry(ppn + n, perm)], n + 1;
    forall a: Va ensures MappedAt(tr, t, r, first, k, ppn, perm, a) { assert MappedAt(tr, tr', r, first, n, ppn, perm, a); }
  }

  lemma MappedOne(tr: map<Va, Word>, tr': map<Va, Word>, r: int, v: int, n: int, ppn: int, perm: Flags)
    requires Mapped(tr, tr', r, v, n, ppn, perm) && 0 <= n <= 1
    ensures tr' == if n == 1 then tr[Va(r, v) := Entry(ppn, perm)] else tr
  {
    var t := if n == 1 then tr[Va(r, v) := Entry(ppn, perm)] else tr;
    forall a: Va ensures (a in tr' <==> a in t) && (a in t ==> tr'[a] == t[a]) { assert MappedAt(tr, tr', r, v, n, ppn, perm, a); }
  }

  lemma UnmappedNext(tr: map<Va, Word>, tr': map<Va, Word>, r: int, first: int, n: nat)
    requires Unmapped(tr, tr', r, first, n)
    ensures Unmapped(tr, tr' - {Va(r, first + n)}, r, first, n + 1)
  {
    var t := tr' - {Va(r, first + n)};
    forall a: Va | a.r != r || a.v < first || first + n + 1 <= a.v ensures Same(tr, t, a) {
      assert Same(tr, tr', a);
    }
  }

  /** What walking to a mapped page finds there. */
  lemma EntryFound(m: Mem, r: int, v: int)
    requires Wf(m) && LeafTable(r, v) in m.tbl
    ensures 0 <= m.tbl[LeafTable(r, v)] < |m.pages|
    ensures Va(r, v) in m.tr ==>
              m.pages[m.tbl[LeafTable(r, v)]][I0(v)] == m.tr[Va(r, v)] && m.tr[Va(r, v)].Entry? && Rwx(m.tr[Va(r, v)].flags)
    ensures Va(r, v) !in m.tr ==> !V(m.pages[m.tbl[LeafTable(r, v)]][I0(v)])
  {
    assert EntryOk(m, LeafTable(r, v), I0(v));
    assert Pte(m, r, v) == m.pages[m.tbl[LeafTable(r, v)]][I0(v)];
  }

  /** At most one page is owned by a mapping. */
  lemma OneOwner(m: Mem, r: int, v: int, p: int)
    requires LeafOk(m) && OwnedLeaf(m, r, v) && Has(m, p) && m.own[p] == Leaf(r, v)
    ensures p == m.tr[Va(r, v)].ppn
  {}

  /** The entry of page v is removed; with `free`, so is the page it led to. */
  function Removed(m: Mem, r: int, v: int, free: bool): Mem
    requires LeafTable(r, v) in m.tbl && Has(m, m.tbl[LeafTable(r, v)]) && |m.pages| == |m.own| == |m.pos|
    requires Va(r, v) in m.tr && m.tr[Va(r, v)].Entry? && Has(m, m.tr[Va(r, v)].ppn)
  {
    SetPte(if free then Push(m, m.tr[Va(r, v)].ppn) else m, r, v, Zero)
  }

  lemma RemovedOk(m: Mem, r: int, v: int, free: bool)
    requires Wf(m) && LeafTable(r, v) in m.tbl && Va(r, v) in m.tr
    requires if free then OwnedLeaf(m, r, v) else forall p :: 0 <= p < |m.own| ==> m.own[p] != Leaf(r, v)
    requires m.tr[Va(r, v)].Entry? && Has(m, m.tr[Va(r, v)].ppn)
    ensures Wf(Removed(m, r, v, free)) && Returned(m, Removed(m, r, v, free), r, v, if free then 1 else 0)
  {
    var p := m.tr[Va(r, v)].ppn;
    var m1 := if free then Push(m, p) else m;
    if free {
      PushOk(m, p);
      forall q | 0 <= q < |m1.own| ensures m1.own[q] != Leaf(r, v) {
        if m.own[q] == Leaf(r, v) { OneOwner(m, r, v, q); }
      }
    }
    SetPteOk(m1, r, v, Zero);
    assert m1.own[m.tbl[LeafTable(r, v)]] == Table(LeafTable(r, v));
  }

  lemma RemovedOwned(m: Mem, r: int, v: int, free: bool)
    requires Sized(m) && Owned(m) && LeafTable(r, v) in m.tbl && Has(m, m.tbl[LeafTable(r, v)])
    requires Va(r, v) in m.tr && m.tr[Va(r, v)].Entry? && Has(m, m.tr[Va(r, v)].ppn) && (free ==> OwnedLeaf(m, r, v))
    ensures Owned(Removed(m, r, v, free))
  {
    var m' := Removed(m, r, v, free);
    forall a: Va | a in m'.tr && !Special(a.v) ensures OwnedLeaf(m', a.r, a.v) {
      assert OwnedLeaf(m, a.r, a.v) && a == Va(a.r, a.v);
    }
  }

  /** The pages that mappings [first, first + n) of tree r owned are free in m'; every
      other page keeps its use, and its contents unless it holds a table. */
  ghost predicate Returned(m: Mem, m': Mem, r: int, first: int, n: int) {
    && |m'.own| == |m.own| == |m'.pages| == |m.pages| && m'.tbl == m.tbl
    && forall p :: 0 <= p < |m.own| ==> ReturnedAt(m, m', r, first, n, p)
  }

  ghost predicate ReturnedAt(m: Mem, m': Mem, r: int, first: int, n: int, p: int)
    requires 0 <= p < |m.own| == |m'.own| == |m'.pages| == |m.pages|
  {
    if m.own[p].Leaf? && m.own[p].r == r && first <= m.own[p].v < first + n then m'.own[p] == Free
    else m'.own[p] == m.own[p] && (m.own[p].Leaf? || m.own[p].Busy? ==> m'.pages[p] == m.pages[p])
  }

  lemma ReturnedNext(a: Mem, b: Mem, c: Mem, r: int, first: int, n: nat, k: nat)
    requires Returned(a, b, r, first, n) && Returned(b, c, r, first + n, k)
    ensures Returned(a, c, r, first, n + k)
  {
    var all := n + k;
    forall p | 0 <= p < |a.own| ensures ReturnedAt(a, c, r, first, all, p) {
      assert ReturnedAt(a, b, r, first, n, p) && ReturnedAt(b, c, r, first + n, k, p);
    }
  }

  lemma ReturnedNone(a: Mem, b: Mem, c: Mem, r: int, first: int, v: int)
    requires Returned(a, b, r, first, 0) && Returned(b, c, r, v, 0)
    ensures Returned(a, c, r, first, 0)
  {
    forall p | 0 <= p < |a.own| ensures ReturnedAt(a, c, r, first, 0, p) {
      assert ReturnedAt(a, b, r, first, 0, p) && ReturnedAt(b, c, r, v, 0, p);
    }
  }

  // ---------- frames handed to mappings ----------

  ghost predicate GaveAt(m: Mem, m': Mem, r: int, first: int, n: int, ppn: int, give: bool, p: int)
    requires 0 <= p < |m.own| == |m'.own| == |m.pages| == |m'.pages|
  {
    if give && ppn <= p < ppn + n then m.own[p] == Busy && m'.own[p] == Leaf(r, first + p - ppn) && m'.pages[p] == m.pages[p]
    else PageKept(m, m', r, p)
  }

  /** From m to m' tables of tree r were added; with `give`, frames ppn, ppn + 1, ... now belong to
      the mappings [first, first + n) of r. */
  ghost predicate Gave(m: Mem, m': Mem, r: int, first: int, n: int, ppn: int, give: bool) {
    && |m.own| == |m'.own| == |m.pages| == |m'.pages|
    && (forall p :: 0 <= p < |m.own| ==> GaveAt(m, m', r, first, n, ppn, give, p))
    && (forall n :: n in m.tbl ==> n in m'.tbl && m'.tbl[n] == m.tbl[n])
    && (forall n :: n in m'.tbl && n !in m.tbl ==> n.r == r)
  }

  lemma GaveNone(m: Mem, m': Mem, r: int, first: int, ppn: int, give: bool)
    ensures Gave(m, m', r, first, 0, ppn, give) <==> Grew(m, m', r)
  {
    if Grew(m, m', r) {
      forall p | 0 <= p < |m.own| ensures GaveAt(m, m', r, first, 0, ppn, give, p) { assert PageKept(m, m', r, p); }
    }
    if Gave(m, m', r, first, 0, ppn, give) {
      forall p | 0 <= p < |m.own| ensures PageKept(m, m', r, p) { assert GaveAt(m, m', r, first, 0, ppn, give, p); }
    }
  }

  lemma GaveNext(a: Mem, b: Mem, c: Mem, r: int, first: int, n: nat, k: nat, ppn: int, give: bool)
    requires Gave(a, b, r, first, n, ppn, give) && Gave(b, c, r, first + n, k, ppn + n, give)
    ensures Gave(a, c, r, first, n + k, ppn, give)
  {
    var all := n + k;
    forall p | 0 <= p < |a.own| ensures GaveAt(a, c, r, first, all, ppn, give, p) {
      assert GaveAt(a, b, r, first, n, ppn, give, p) && GaveAt(b, c, r, first + n, k, ppn + n, give, p);
    }
  }

  /** The entry for page v is stored; with `give`, frame p becomes the mapping's own. */
  function Installed(m: Mem, r: int, v: int, p: int, perm: Flags, give: bool): Mem
    requires LeafTable(r, v) in m.tbl && 0 <= m.tbl[LeafTable(r, v)] < |m.pages| && (give ==> Has(m, p))
  {
    var m1 := SetPte(m, r, v, Entry(p, perm));
    if give then Give(m1, p, r, v) else m1
  }

  lemma InstalledOk(m: Mem, r: int, v: int, p: int, perm: Flags, give: bool)
    requires Wf(m) && LeafTable(r, v) in m.tbl && Rwx(perm) && Va(r, v) !in m.tr && (give ==> 0 < p < |m.own| && m.own[p] == Busy)
    ensures Has(m, m.tbl[LeafTable(r, v)]) && Wf(Installed(m, r, v, p, perm, give))
    ensures Gave(m, Installed(m, r, v, p, perm, give), r, v, 1, p, give)
  {
    SetPteOk(m, r, v, Entry(p, perm));
    SetPteGrew(m, r, v, Entry(p, perm));
    var m1 := SetPte(m, r, v, Entry(p, perm));
    if give { GiveOk(m1, p, r, v); }
    forall q | 0 <= q < |m.own| ensures GaveAt(m, Installed(m, r, v, p, perm, give), r, v, 1, p, give, q) { assert PageKept(m, m1, r, q); }
  }

  lemma InstalledOwned(m: Mem, r: int, v: int, p: int, perm: Flags, give: bool)
    requires Owned(m) && LeafTable(r, v) in m.tbl && 0 <= m.tbl[LeafTable(r, v)] < |m.pages| && Va(r, v) !in m.tr
    requires if give then Has(m, p) && m.own[p] == Busy else Special(v)
    ensures Owned(Installed(m, r, v, p, perm, give))
  {
    var m' := Installed(m, r, v, p, perm, give);
    forall a: Va | a in m'.tr && !Special(a.v) ensures OwnedLeaf(m', a.r, a.v) {
      assert a == Va(a.r, a.v) && (a in m.tr ==> OwnedLeaf(m, a.r, a.v));
    }
  }

  // ---------- fresh leaves ----------

  /** Busy page p, to which page v of tree r is mapped, now belongs to that mapping. */
  function Give(m: Mem, p: int, r: int, v: int): Mem
    requires Has(m, p)
  { m.(own := m.own[p := Leaf(r, v)]) }

  lemma GiveOk(m: Mem, p: int, r: int, v: int)
    requires Wf(m) && 0 < p < |m.own| && m.own[p] == Busy && Maps(m.tr, r, v, p)
    ensures Wf(Give(m, p, r, v))
  {
    var m' := Give(m, p, r, v);
    TablesKept(m, m');
    FreeKept(m, m');
  }

  /** Page v of tree r is a page of its own with this content and permission. */
  ghost predicate FreshLeaf(m: Mem, r: int, v: int, perm: Flags, page: Page) {
    OwnedLeaf(m, r, v) && m.tr[Va(r, v)].flags == perm && 0 <= m.tr[Va(r, v)].ppn < |m.pages| && m.pages[m.tr[Va(r, v)].ppn] == page
  }

  ghost predicate FilledAt(m: Mem, m': Mem, r: int, first: int, n: int, p: int)
    requires 0 <= p < |m.own| == |m'.own| == |m'.pages| == |m.pages|
  {
    match m.own[p]
    case Free =>
      || m'.own[p].Free? || (m'.own[p].Table? && m'.own[p].n.r == r)
      || (m'.own[p].Leaf? && m'.own[p].r == r && first <= m'.own[p].v < first + n)
    case Table(_) => m'.own[p] == m.own[p]
    case _ => m'.own[p] == m.own[p] && m'.pages[p] == m.pages[p]
  }

  ghost predicate FreshAt(m: Mem, r: int, first: int, perms: seq<Flags>, data: seq<Page>, i: nat)
    requires i < |perms| == |data|
  { FreshLeaf(m, r, first + i, perms[i], data[i]) }

  /** From m to m', free pages became the leaves [first, first + |data|) of tree r, and
      tables of r; nothing else changed. */
  ghost predicate Filled(m: Mem, m': Mem, r: int, first: int, perms: seq<Flags>, data: seq<Page>) {
    && |m.own| == |m'.own| == |m.pages| == |m'.pages| && |perms| == |data|
    && (forall i :: 0 <= i < |data| ==> FreshAt(m', r, first, perms, data, i))
    && (forall a: Va :: a.r != r || a.v < first || first + |data| <= a.v ==> Same(m.tr, m'.tr, a))
    && (forall p :: 0 <= p < |m.own| ==> FilledAt(m, m', r, first, |data|, p))
    && (forall n :: n in m.tbl ==> n in m'.tbl && m'.tbl[n] == m.tbl[n])
    && (forall n :: n in m'.tbl && n !in m.tbl ==> n.r == r)
  }

  /** One more leaf. */
  ghost predicate LeafAdded(m: Mem, m': Mem, r: int, v: int, p: int, perm: Flags, page: Page) {
    && |m.own| == |m'.own| == |m.pages| == |m'.pages|
    && 0 < p < |m.own| && m.own[p] == Free && m'.own[p] == Leaf(r, v) && m'.pages[p] == page
    && m'.tr == m.tr[Va(r, v) := Entry(p, perm)]
    && (forall q :: 0 <= q < |m.own| && q != p ==> PageKept(m, m', r, q))
    && (forall n :: n in m.tbl ==> n in m'.tbl && m'.tbl[n] == m.tbl[n])
    && (forall n :: n in m'.tbl && n !in m.tbl ==> n.r == r)
  }

  lemma FreshStill(m: Mem, m': Mem, r: int, v: int, p: int, perm: Flags, page: Page, w: int, perm': Flags, page': Page)
    requires LeafAdded(m, m', r, v, p, perm, page) && FreshLeaf(m, r, w, perm', page') && w != v
    ensures FreshLeaf(m', r, w, perm', page')
  {
    assert PageKept(m, m', r, m.tr[Va(r, w)].ppn);
  }

  lemma FilledPages(m: Mem, m1: Mem, m2: Mem, r: int, first: int, n: nat, p: int, perm: Flags, page: Page, q: int)
    requires |m.own| == |m1.own| == |m2.own| == |m.pages| == |m1.pages| == |m2.pages| && 0 <= q < |m.own|
    requires FilledAt(m, m1, r, first, n, q) && LeafAdded(m1, m2, r, first + n, p, perm, page)
    ensures FilledAt(m, m2, r, first, n + 1, q)
  {
    assert q != p ==> PageKept(m1, m2, r, q);
  }

  lemma FilledNext(m: Mem, m1: Mem, m2: Mem, r: int, first: int, perms: seq<Flags>, data: seq<Page>, p: int, perm: Flags, page: Page)
    requires Filled(m, m1, r, first, perms, data) && LeafAdded(m1, m2, r, first + |data|, p, perm, page)
    ensures Filled(m, m2, r, first, perms + [perm], data + [page])
  {
    var v, n := first + |data|, |data| + 1;
    forall i | 0 <= i < n ensures FreshAt(m2, r, first, perms + [perm], data + [page], i) {
      if i < |data| {
        assert FreshAt(m1, r, first, perms, data, i);
        FreshStill(m1, m2, r, v, p, perm, page, first + i, perms[i], data[i]);
      }
    }
    forall a: Va | a.r != r || a.v < first || first + n <= a.v ensures Same(m.tr, m2.tr, a) {
      assert Same(m.tr, m1.tr, a);
    }
    forall q | 0 <= q < |m.own| ensures FilledAt(m, m2, r, first, n, q) {
      FilledPages(m, m1, m2, r, first, |data|, p, perm, page, q);
    }
  }

  /** Unmapping the fresh leaves again undoes everything but the new tables. */
  lemma FilledUndone(m: Mem, m1: Mem, m2: Mem, r: int, first: int, perms: seq<Flags>, data: seq<Page>)
    requires Filled(m, m1, r, first, perms, data)
    requires Unmapped(m1.tr, m2.tr, r, first, |data|) && Returned(m1, m2, r, first, |data|)
    requires forall v :: first <= v < first + |data| ==> Va(r, v) !in m.tr
    requires LeafOk(m)
    ensures m2.tr == m.tr && Grew(m, m2, r)
  {
    forall a: Va ensures a in m2.tr <==> a in m.tr
      ensures a in m.tr ==> m2.tr[a] == m.tr[a]
    {
      if a.r != r || a.v < first || first + |data| <= a.v {
        assert Same(m.tr, m1.tr, a) && Same(m1.tr, m2.tr, a);
      } else {
        assert a == Va(r, a.v);
      }
    }
    var n := |data|;
    forall q | 0 <= q < |m.own| ensures PageKept(m, m2, r, q) {
      assert FilledAt(m, m1, r, first, n, q) && ReturnedAt(m1, m2, r, first, n, q);
      assert m.own[q].Leaf? ==> Maps(m.tr, m.own[q].r, m.own[q].v, q);
    }
  }

  // ---------- kalloc, fill, map ----------

  /** The top free page is allocated and filled. */
  function Hold(m: Mem, p: int, page: Page): Mem
    requires m.fs != [] && p == Last(m.fs) && Has(m, p) && |m.pages| == |m.own|
  { Pop(m).(pages := Pop(m).pages[p := page]) }

  lemma BusyPage(m: Mem, p: int, page: Page)
    requires Wf(m) && m.fs != [] && p == Last(m.fs)
    ensures 0 < p < |m.own| && m.own[p] == Free && Wf(Hold(m, p, page))
  {
    PopOk(m);
    var m1 := Pop(m);
    TablesKept(m1, Hold(m, p, page));
    FreeKept(m1, Hold(m, p, page));
  }

  lemma HeldAndGiven(m: Mem, m2: Mem, r: int, v: int, p: int, perm: Flags, page: Page)
    requires Sized(m) && FreeOk(m) && m.fs != [] && p == Last(m.fs) && 0 < p < |m.own| && m.own[p] == Free
    requires Gave(Hold(m, p, page), m2, r, v, 1, p, true) && m2.tr == m.tr[Va(r, v) := Entry(p, perm)]
    ensures LeafAdded(m, m2, r, v, p, perm, page)
  {
    var m1 := Hold(m, p, page);
    assert GaveAt(m1, m2, r, v, 1, p, true, p);
    forall q | 0 <= q < |m.own| && q != p ensures PageKept(m, m2, r, q) {
      assert GaveAt(m1, m2, r, v, 1, p, true, q);
    }
  }

  lemma HeldAndFreed(m: Mem, m2: Mem, r: int, p: int, page: Page)
    requires Sized(m) && FreeOk(m) && m.fs != [] && p == Last(m.fs) && 0 < p < |m.own| && m.own[p] == Free
    requires Sized(m2) && Grew(Hold(m, p, page), m2, r)
    ensures Grew(m, Push(m2, p), r)
  {
    var m1 := Hold(m, p, page);
    forall q | 0 <= q < |m.own| ensures PageKept(m, Push(m2, p), r, q) {
      assert PageKept(m1, m2, r, q);
    }
  }

  lemma FilledThenGrew(m: Mem, m1: Mem, m2: Mem, r: int, first: int, perms: seq<Flags>, data: seq<Page>)
    requires Filled(m, m1, r, first, perms, data) && Grew(m1, m2, r) && m2.tr == m1.tr
    ensures Filled(m, m2, r, first, perms, data)
  {
    forall i | 0 <= i < |data| ensures FreshAt(m2, r, first, perms, data, i) {
      assert FreshAt(m1, r, first, perms, data, i);
      assert PageKept(m1, m2, r, m1.tr[Va(r, first + i)].ppn);
    }
    forall a: Va | a.r != r || a.v < first || first + |data| <= a.v ensures Same(m.tr, m2.tr, a) {
      assert Same(m.tr, m1.tr, a);
    }
    var n := |data|;
    forall q | 0 <= q < |m.own| ensures FilledAt(m, m2, r, first, n, q) {
      assert FilledAt(m, m1, r, first, n, q) && PageKept(m1, m2, r, q);
    }
  }
}
