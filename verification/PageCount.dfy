/** No page is lost or counted twice: the free list, the tables, the frames of mapped pages and the
    pages that the kernel itself has in use add up to all of memory. */
module PageCount {
  import opened PageMem
  import opened PageFree

  /** An injective map has as many entries as values. */
  lemma {:induction false} SameCount<T>(f: map<T, int>)
    requires forall x, y :: x in f && y in f && f[x] == f[y] ==> x == y
    ensures |f.Values| == |f|
    decreases |f|
  {
    if f != map[] {
      var x :| x in f;
      var g := f - {x};
      assert f == g[x := f[x]];
      SameCount(g);
      OneValueLess(f, g, x);
    }
  }

  lemma OneValueLess<T>(f: map<T, int>, g: map<T, int>, x: T)
    requires x in f && g == f - {x} && forall y :: y in f && f[y] == f[x] ==> y == x
    ensures g.Values == f.Values - {f[x]}
  {
    forall p ensures p in g.Values <==> p in f.Values && p != f[x] {
      if p in f.Values && p != f[x] {
        var y :| y in f && f[y] == p;
        assert y in g && g[y] == p;
      }
    }
  }

  ghost function Numbers(n: nat): (s: set<int>)
    ensures |s| == n && forall p :: p in s <==> 0 <= p < n
  { if n == 0 then {} else Numbers(n - 1) + {n - 1} }

  // ---------- the four uses of a page ----------

  datatype Use = AsFree | AsTable | AsFrame | AsBusy

  function UseOf(o: Owner): Use {
    match o
    case Free => AsFree
    case Table(_) => AsTable
    case Leaf(_, _) => AsFrame
    case Busy => AsBusy
  }

  function PagesOf(own: seq<Owner>, u: Use): set<int> { set p | 0 <= p < |own| && UseOf(own[p]) == u }

  /** The mapped pages that have a frame of their own. */
  ghost function OwnLeaves(m: Mem): set<Va> { set a | a in m.tr && OwnedLeaf(m, a.r, a.v) }

  lemma LastPage(own: seq<Owner>, u: Use)
    requires own != []
    ensures |PagesOf(own, u)| == |PagesOf(own[..|own| - 1], u)| + if UseOf(own[|own| - 1]) == u then 1 else 0
  {
    var n, init := |own| - 1, PagesOf(own[..|own| - 1], u);
    forall p ensures p in PagesOf(own, u) <==> p in init || (p == n && UseOf(own[n]) == u) {}
    assert PagesOf(own, u) == if UseOf(own[n]) == u then init + {n} else init;
  }

  /** Every page has exactly one use. */
  lemma {:induction false} Partition(own: seq<Owner>)
    ensures |own| == |PagesOf(own, AsFree)| + |PagesOf(own, AsTable)| + |PagesOf(own, AsFrame)| + |PagesOf(own, AsBusy)|
  {
    if own == [] {
      forall u ensures PagesOf(own, u) == {} {}
    } else {
      Partition(own[..|own| - 1]);
      LastPage(own, AsFree);
      LastPage(own, AsTable);
      LastPage(own, AsFrame);
      LastPage(own, AsBusy);
    }
  }

  /** A set has as many elements as a list of them that says where each is. */
  lemma ListCount(s: set<int>, list: seq<int>, pos: seq<int>)
    requires forall i :: 0 <= i < |list| ==> 0 <= list[i] < |pos| && pos[list[i]] == i
    requires forall p :: p in s <==> p in list
    ensures |s| == |list|
  {
    var f := map i | i in Numbers(|list|) :: list[i];
    assert f.Keys == Numbers(|list|);
    SameCount(f);
    forall p | p in s ensures p in f.Values {
      var i :| 0 <= i < |list| && list[i] == p;
      assert i in f && f[i] == p;
    }
    assert f.Values == s;
  }

  lemma FreeCount(m: Mem)
    requires Sized(m) && FreeOk(m)
    ensures |PagesOf(m.own, AsFree)| == |m.fs|
  {
    forall p ensures p in PagesOf(m.own, AsFree) <==> p in m.fs {
      if p in PagesOf(m.own, AsFree) { assert m.own[p] == Free && m.fs[m.pos[p]] == p; }
    }
    ListCount(PagesOf(m.own, AsFree), m.fs, m.pos);
  }

  lemma TableCount(m: Mem)
    requires TblOk(m)
    ensures |PagesOf(m.own, AsTable)| == |m.tbl|
  {
    forall n1, n2 | n1 in m.tbl && n2 in m.tbl && m.tbl[n1] == m.tbl[n2] ensures n1 == n2 {
      assert m.own[m.tbl[n1]] == Table(n1) && m.own[m.tbl[n2]] == Table(n2);
    }
    SameCount(m.tbl);
    forall p ensures p in PagesOf(m.own, AsTable) <==> p in m.tbl.Values {
      if p in PagesOf(m.own, AsTable) { assert m.own[p].n in m.tbl && m.tbl[m.own[p].n] == p; }
      if p in m.tbl.Values {
        var n :| n in m.tbl && m.tbl[n] == p;
        assert m.own[m.tbl[n]] == Table(n);
      }
    }
    assert m.tbl.Values == PagesOf(m.own, AsTable);
  }

  lemma FrameCount(m: Mem)
    requires LeafOk(m)
    ensures |PagesOf(m.own, AsFrame)| == |OwnLeaves(m)|
  {
    var f := map a | a in OwnLeaves(m) :: m.tr[a].ppn;
    assert f.Keys == OwnLeaves(m);
    forall a, b | a in f && b in f && f[a] == f[b] ensures a == b {
      assert OwnedLeaf(m, a.r, a.v) && OwnedLeaf(m, b.r, b.v) && a == Va(a.r, a.v) && b == Va(b.r, b.v);
    }
    SameCount(f);
    forall p ensures p in PagesOf(m.own, AsFrame) <==> p in f.Values {
      if p in PagesOf(m.own, AsFrame) {
        var a := Va(m.own[p].r, m.own[p].v);
        assert Maps(m.tr, a.r, a.v, p) && OwnedLeaf(m, a.r, a.v) && a in f && f[a] == p;
      }
      if p in f.Values {
        var a :| a in f && f[a] == p;
        assert OwnedLeaf(m, a.r, a.v) && a == Va(a.r, a.v);
      }
    }
    assert f.Values == PagesOf(m.own, AsFrame);
  }

  /** Conservation.  Free pages, tables, mapped pages with their own frames and pages in other use add up to
      all of memory; and every mapped page but TRAMPOLINE and TRAPFRAME is among the mapped pages counted. */
  lemma Conserved(m: Mem, a: Va)
    requires Wf(m) && Owned(m)
    ensures |m.own| == |m.fs| + |m.tbl| + |OwnLeaves(m)| + |PagesOf(m.own, AsBusy)|
    ensures UserLeaf(m, a) ==> a in OwnLeaves(m)
  {
    Partition(m.own);
    FreeCount(m);
    TableCount(m);
    FrameCount(m);
    assert UserLeaf(m, a) ==> OwnedLeaf(m, a.r, a.v);
  }

  // ---------- what mapping costs ----------

  /** Table x, below the root, is on the way to page v. */
  predicate Passes(x: Node, r: int, v: int) { x == L1(r, I2(v)) || x == L0(r, I2(v), I1(v)) }

  /** Table x is on the way to one of the pages [first, first + n). */
  ghost predicate OnWay(x: Node, r: int, first: int, n: int) { exists v :: first <= v < first + n && Passes(x, r, v) }

  /** 1 if table x is neither there nor on the way to an earlier page of the range. */
  ghost function New(m: Mem, r: int, first: int, i: nat, x: Node): nat { if x in m.tbl || OnWay(x, r, first, i) then 0 else 1 }

  /** How many tables have to be made before pages [first, first + n) can be mapped: each counts at the first page
      that needs it. */
  ghost function Missing(m: Mem, r: int, first: int, n: nat): nat {
    if n == 0 then 0
    else
      var v := first + n - 1;
      Missing(m, r, first, n - 1) + New(m, r, first, n - 1, L1(r, I2(v))) + New(m, r, first, n - 1, L0(r, I2(v), I1(v)))
  }

  /** From m to m' just the missing tables of [first, first + n) were made, and the free list has paid for them and,
      with `leaves`, for n pages more. */
  ghost predicate Spent(m: Mem, m': Mem, r: int, first: int, n: nat, leaves: bool) { forall x :: SpentAt(m, m', r, first, n, leaves, x) }

  ghost predicate SpentAt(m: Mem, m': Mem, r: int, first: int, n: nat, leaves: bool, x: Node) {
    && (x in m'.tbl <==> x in m.tbl || OnWay(x, r, first, n))
    && |m'.fs| + Price(m, r, first, n, leaves) == |m.fs|
  }

  ghost function Price(m: Mem, r: int, first: int, n: nat, leaves: bool): nat { Missing(m, r, first, n) + if leaves then n else 0 }

  /** The free list does not suffice for any range of more than n pages from first on. */
  ghost predicate Lacks(m: Mem, r: int, first: int, n: nat, leaves: bool) { forall all: nat :: LacksAt(m, r, first, n, leaves, all) }

  ghost predicate LacksAt(m: Mem, r: int, first: int, n: nat, leaves: bool, all: nat) { all > n ==> |m.fs| < Price(m, r, first, all, leaves) }

  lemma NothingSpent(m: Mem, r: int, first: int, leaves: bool)
    ensures Spent(m, m, r, first, 0, leaves)
  {
    forall x ensures SpentAt(m, m, r, first, 0, leaves, x) {}
  }

  lemma MissingOne(m: Mem, r: int, v: int)
    ensures Missing(m, r, v, 1) == (if L1(r, I2(v)) in m.tbl then 0 else 1) + (if L0(r, I2(v), I1(v)) in m.tbl then 0 else 1)
  {
    assert Missing(m, r, v, 0) == 0;
  }

  lemma MissingNext(m: Mem, m1: Mem, r: int, first: int, n: nat, leaves: bool)
    requires Spent(m, m1, r, first, n, leaves)
    ensures Missing(m, r, first, n + 1) == Missing(m, r, first, n) + Missing(m1, r, first + n, 1)
    ensures |m1.fs| + Price(m, r, first, n, leaves) == |m.fs|
  {
    var v := first + n;
    MissingOne(m1, r, v);
    assert SpentAt(m, m1, r, first, n, leaves, L1(r, I2(v))) && SpentAt(m, m1, r, first, n, leaves, L0(r, I2(v), I1(v)));
  }

  /** Memory that does not suffice for the next page does not suffice for the range. */
  lemma StillLacks(m: Mem, m1: Mem, r: int, first: int, n: nat, leaves: bool)
    requires Spent(m, m1, r, first, n, leaves) && Lacks(m1, r, first + n, 0, leaves)
    ensures Lacks(m, r, first, n, leaves)
  {
    MissingNext(m, m1, r, first, n, leaves);
    assert LacksAt(m1, r, first + n, 0, leaves, 1);
    forall all: nat ensures LacksAt(m, r, first, n, leaves, all) {
      if all > n { MissingGrows(m, r, first, n + 1, all); }
    }
  }

  lemma OnWayNext(x: Node, r: int, first: int, n: nat)
    ensures OnWay(x, r, first, n + 1) <==> OnWay(x, r, first, n) || Passes(x, r, first + n)
    ensures OnWay(x, r, first + n, 1) <==> Passes(x, r, first + n)
  {
    if OnWay(x, r, first, n) {
      var v :| first <= v < first + n && Passes(x, r, v);
      assert first <= v < first + (n + 1) && Passes(x, r, v);
    }
    if Passes(x, r, first + n) { assert first + n < first + (n + 1) && first + n < first + n + 1; }
  }

  lemma SpentNext(m: Mem, m1: Mem, m2: Mem, r: int, first: int, n: nat, leaves: bool)
    requires Spent(m, m1, r, first, n, leaves) && Spent(m1, m2, r, first + n, 1, leaves)
    ensures Spent(m, m2, r, first, n + 1, leaves)
  {
    MissingNext(m, m1, r, first, n, leaves);
    var k := n + 1;
    forall x ensures SpentAt(m, m2, r, first, k, leaves, x) {
      OnWayNext(x, r, first, n);
      assert SpentAt(m, m1, r, first, n, leaves, x) && SpentAt(m1, m2, r, first + n, 1, leaves, x);
    }
  }

  lemma SpentSame(m: Mem, m1: Mem, m2: Mem, r: int, first: int, n: nat, leaves: bool)
    requires Spent(m, m1, r, first, n, leaves) && m2.tbl == m1.tbl && m2.fs == m1.fs
    ensures Spent(m, m2, r, first, n, leaves)
  {
    forall x ensures SpentAt(m, m2, r, first, n, leaves, x) { assert SpentAt(m, m1, r, first, n, leaves, x); }
  }

  /** A page for the leaf itself first. */
  lemma LeafPaid(m: Mem, m1: Mem, m2: Mem, r: int, v: int)
    requires m1.tbl == m.tbl && |m1.fs| == |m.fs| - 1 && Spent(m1, m2, r, v, 1, false)
    ensures Spent(m, m2, r, v, 1, true)
  {
    MissingOne(m, r, v);
    MissingOne(m1, r, v);
    forall x ensures SpentAt(m, m2, r, v, 1, true, x) { assert SpentAt(m1, m2, r, v, 1, false, x); }
  }

  lemma {:induction false} MissingSame(m: Mem, m1: Mem, r: int, v: int, n: nat)
    requires m1.tbl == m.tbl
    ensures Missing(m1, r, v, n) == Missing(m, r, v, n)
  {
    if n > 0 { MissingSame(m, m1, r, v, n - 1); }
  }

  lemma LeafLacks(m: Mem, m1: Mem, r: int, v: int)
    requires m1.tbl == m.tbl && |m1.fs| == |m.fs| - 1 && Lacks(m1, r, v, 0, false)
    ensures Lacks(m, r, v, 0, true)
  {
    forall all: nat ensures LacksAt(m, r, v, 0, true, all) {
      MissingSame(m, m1, r, v, all);
      assert LacksAt(m1, r, v, 0, false, all);
    }
  }

  /** What is spent was there, and what is lacking was not. */
  lemma Afforded(m: Mem, m': Mem, r: int, first: int, n: nat, leaves: bool)
    requires Spent(m, m', r, first, n, leaves)
    ensures Price(m, r, first, n, leaves) <= |m.fs|
  {
    assert SpentAt(m, m', r, first, n, leaves, L2(r));
  }

  lemma Unaffordable(m: Mem, r: int, first: int, k: nat, n: nat, leaves: bool)
    requires Lacks(m, r, first, k, leaves) && k < n
    ensures |m.fs| < Price(m, r, first, n, leaves)
  {
    assert LacksAt(m, r, first, k, leaves, n);
  }

  lemma {:induction false} MissingGrows(m: Mem, r: int, first: int, k: nat, n: nat)
    requires k <= n
    ensures Missing(m, r, first, k) <= Missing(m, r, first, n)
  {
    if k < n { MissingGrows(m, r, first, k, n - 1); }
  }
}
