/** kernel/kalloc.c and kernel/vm.c: the page allocator and the operations on
    three-level page tables, as code that updates physical memory in place.

    The contracts speak about the flat map `tr` from pages to entries; Valid() says
    that walking the tables in memory yields exactly that map. */
module Vm {
  import opened Machine
  import opened PageMem
  import opened PageFree
  import opened PageCount

  /** The number of pages that a bytes take; PGROUNDUP(a) is 4096 times that. */
  function Pages(a: nat): nat { (a + 4095) / 4096 }

  class Vm {
    var pages: seq<Page>
    var freelist: int            // address of the first free page, 0 for none
    ghost var own: seq<Owner>
    ghost var fs: seq<int>
    ghost var pos: seq<int>
    ghost var tbl: map<Node, int>
    ghost var tr: map<Va, Word>  // the flat map the tables implement

    ghost function M(): Mem
      reads this
    { Mem(pages, own, fs, pos, tbl, tr) }

    /** The tables, the free list and the record of owners agree with memory. */
    ghost predicate Core()
      reads this
    { Wf(M()) && freelist == Top(fs) }

    /** And every user page's frame is its own, as it is but for a moment in uvmunmap. */
    ghost predicate Valid()
      reads this
    { Core() && Owned(M()) }

    // ---------- kalloc.c ----------

    /** kinit: pages lo .. n - 1 of an n-page memory are put on the free list. */
    constructor (n: nat, lo: nat)
      requires 0 < lo <= n
      ensures Valid() && |own| == n && tbl == map[] && tr == map[]
      ensures forall p :: 0 <= p < n ==> own[p] == if p < lo then Busy else Free
    {
      pages, freelist := seq(n, _ => Fill(Zero)), 0;
      own, fs, pos, tbl, tr := seq(n, _ => Busy), [], seq(n, _ => 0), map[], map[];
      new;
      var p := lo;
      while p < n
        invariant lo <= p <= n && Valid() && |own| == n && tbl == map[] && tr == map[]
        invariant forall q :: 0 <= q < n ==> own[q] == if lo <= q < p then Free else Busy
      {
        Kfree(p * 4096);
        p := p + 1;
      }
    }

    /** Free one page that is in use and not mapped. */
    method Kfree(pa: int)
      requires Core() && pa % 4096 == 0 && 0 < pa / 4096 < |own| && own[pa / 4096] == Busy
      modifies this
      ensures Core() && M() == Push(old(M()), pa / 4096)
      ensures Owned(old(M())) ==> Owned(M()) && Unreferenced(M(), pa / 4096)
    {
      var p := pa / 4096;
      if Owned(M()) { BusyUnmapped(M(), p); }
      PushOk(M(), p);
      pages := pages[p := Fill(FREE_JUNK)[0 := Link(freelist)]];
      freelist := pa;
      fs, pos, own := fs + [p], pos[p := |fs|], own[p := Free];
      assert M() == Push(old(M()), p);
      if Owned(old(M())) {
        OwnedKept(old(M()), M());
        forall a: Va | a in tr && !Special(a.v) ensures LeadsElsewhere(M(), p, a) { assert LeadsElsewhere(old(M()), p, a); }
      }
    }

    /** Allocate one page; 0 if there is none. */
    method Kalloc() returns (pa: int)
      requires Valid()
      modifies this
      ensures Valid()
      ensures pa == 0 <==> old(fs) == []
      ensures pa == 0 ==> M() == old(M())
      ensures pa != 0 ==> pa == Last(old(fs)) * 4096 && Has(old(M()), Last(old(fs))) && M() == Pop(old(M()))
    {
      assert fs != [] ==> Has(M(), Last(fs)) && own[Last(fs)] == Free;
      pa := freelist;
      if pa != 0 {
        PopOk(M());
        var p := pa / 4096;
        assert p == Last(fs);
        freelist := pages[p][0].addr;
        pages := pages[p := Fill(ALLOC_JUNK)];
        fs, own := fs[..|fs| - 1], own[p := Busy];
        assert M() == Pop(old(M()));
        OwnedKept(old(M()), M());
      }
    }

    // ---------- walk ----------

    /** kalloc a page and make it the table that entry i of n leads to. */
    method AddLevel(ghost n: Node, cur: int, i: nat) returns (ok: bool, next: int)
      requires Valid() && n in tbl && tbl[n] == cur && !n.L0? && i < NPTE && Child(n, i) !in tbl
      modifies this
      ensures Valid() && tr == old(tr) && ok == (old(fs) != [])
      ensures if ok then Grew(old(M()), M(), n.r) && tbl == old(tbl)[Child(n, i) := next] && |fs| == |old(fs)| - 1
              else M() == old(M())
    {
      ghost var m := M();
      var pa := Kalloc();
      ok := pa != 0;
      next := pa / 4096;
      if ok {
        assert next == Last(m.fs) && M() == Pop(m);
        LinkTable(n, cur, i, next);
        assert M() == NewTable(m, n, i);
        NewTableOk(m, n, i);
        OwnedGrew(m, M(), n.r);
      }
    }

    /** memset the new table and store the entry that leads to it. */
    method LinkTable(ghost n: Node, cur: int, i: nat, next: int)
      requires n in tbl && tbl[n] == cur && Has(M(), cur) && Has(M(), next) && |pages| == |own| && !n.L0? && i < NPTE
      modifies this`pages, this`own, this`tbl
      ensures M() == AddTable(old(M()), n, i, next)
    {
      pages := pages[next := Fill(Zero)][cur := pages[cur][i := Entry(next, NOFLAGS)]];
      own, tbl := own[next := Table(Child(n, i))], tbl[Child(n, i) := next];
    }

    /** One turn of walk's loop: the table that entry i of n leads to, made if asked for and missing. */
    method Descend(ghost n: Node, cur: int, i: nat, alloc: bool) returns (ok: bool, next: int)
      requires Valid() && n in tbl && tbl[n] == cur && !n.L0? && i < NPTE
      modifies this
      ensures Valid() && tr == old(tr)
      ensures ok <==> Child(n, i) in old(tbl) || (alloc && old(fs) != [])
      ensures !ok || Child(n, i) in old(tbl) ==> M() == old(M())
      ensures ok ==> Child(n, i) in tbl && tbl[Child(n, i)] == next
      ensures ok && Child(n, i) !in old(tbl) ==> Grew(old(M()), M(), n.r) && tbl == old(tbl)[Child(n, i) := next] && |fs| == |old(fs)| - 1
    {
      assert EntryOk(M(), n, i);
      var pte := pages[cur][i];
      if V(pte) { return true, pte.ppn; }
      if !alloc { return false, 0; }
      ok, next := AddLevel(n, cur, i);
    }

    /** The bottom table and index of the entry for va; with `alloc`, tables on the way are made, and that fails
        exactly if there are not pages enough for the missing ones.  va >= MAXVA panics in the code. */
    method Walk(root: int, va: nat, alloc: bool) returns (ok: bool, page: int, idx: nat)
      requires Valid() && L2(root) in tbl && va < MAXVA
      modifies this
      ensures Valid() && tr == old(tr) && Grew(old(M()), M(), root)
      ensures !alloc ==> M() == old(M())
      ensures ok ==> LeafTable(root, va / 4096) in tbl && tbl[LeafTable(root, va / 4096)] == page && idx == I0(va / 4096)
      ensures !ok ==> Va(root, va / 4096) !in tr && (alloc ==> fs == [])
      ensures alloc ==> if ok then Spent(old(M()), M(), root, va / 4096, 1, false) else Lacks(old(M()), root, va / 4096, 0, false)
    {
      ghost var v := va / 4096;
      ghost var m := M();
      IndicesInjective(v, v);
      var cur := root;
      assert tbl[L2(root)] == root by { assert NodeOk(M(), L2(root)); }
      ghost var n := L2(root);
      DownStarts(m, root, v);
      var level := 2;
      while level > 0
        invariant 0 <= level <= 2 && Valid() && tr == m.tr && Down(m, M(), n, root, v)
        invariant n == if level == 2 then L2(root) else if level == 1 then L1(root, I2(v)) else L0(root, I2(v), I1(v))
        invariant n in tbl && tbl[n] == cur && (!alloc ==> M() == m)
      {
        var shift := if level == 2 then 0x4000_0000 else 0x20_0000;   // 2^PXSHIFT(level)
        var i := va / shift % 512;
        assert i == if level == 2 then I2(v) else I1(v) by { Px(va); }
        ghost var m1 := M();
        ok, cur := Descend(n, cur, i, alloc);
        if !ok {
          NoWay(m, M(), n, root, v);
          return false, 0, 0;
        }
        DownNext(m, m1, M(), n, root, v);
        n := Child(n, i);
        level := level - 1;
      }
      ok, page, idx := true, cur, va / 4096 % 512;
      WaySpent(m, M(), root, v);
    }

    /** The physical address that va translates to for the user, or 0. */
    method Walkaddr(root: int, va: nat) returns (pa: int)
      requires Valid() && L2(root) in tbl
      modifies this
      ensures M() == old(M()) && Valid()
      ensures pa == if va < MAXVA && Va(root, va / 4096) in tr && tr[Va(root, va / 4096)].Entry? && tr[Va(root, va / 4096)].flags.u
                    then tr[Va(root, va / 4096)].ppn * 4096 else 0
    {
      if va >= MAXVA { return 0; }
      var ok, page, idx := Walk(root, va, false);
      if !ok { return 0; }
      EntryFound(M(), root, va / 4096);
      var pte := pages[page][idx];
      pa := if V(pte) && pte.flags.u then pte.ppn * 4096 else 0;
    }

    /** A new tree with no page mapped; 0 if out of memory. */
    method Uvmcreate() returns (pa: int)
      requires Valid()
      modifies this
      ensures Valid() && tr == old(tr) && (pa == 0 <==> old(fs) == [])
      ensures pa == 0 ==> M() == old(M())
      ensures pa != 0 ==> L2(pa / 4096) in tbl && NoLeaf(tr, pa / 4096) && Grew(old(M()), M(), pa / 4096)
    {
      ghost var m := M();
      pa := HoldPage(Fill(Zero));
      if pa != 0 {
        ghost var r, m1 := pa / 4096, M();
        NewRootOk(m, r);
        own, tbl := own[r := Table(L2(r))], tbl[L2(r) := r];
        assert M() == NewRoot(m1, r);
        OwnedKept(m1, M());
      }
    }

    // ---------- mappages ----------

    /** Store one entry; with `give`, frame ppn becomes the mapping's own.  An entry that is valid already panics. */
    method MapOne(root: int, va: nat, ppn: int, perm: Flags, ghost give: bool) returns (out: Mapping)
      requires Valid() && L2(root) in tbl && va < MAXVA && Rwx(perm) && Mappable(M(), va / 4096, ppn, give)
      modifies this
      ensures Valid() && L2(root) in tbl && out != Empty && (out == Remap <==> Va(root, va / 4096) in old(tr))
      ensures if out == Whole then Ranged(old(M()), M(), root, va / 4096, 1, ppn, perm, give) else tr == old(tr) && Grew(old(M()), M(), root)
      ensures out == NoMemory ==> fs == [] && Lacks(old(M()), root, va / 4096, 0, false)
    {
      ghost var m, v := M(), va / 4096;
      var ok, page, idx := Walk(root, va, true);
      if !ok { return NoMemory; }
      ghost var m1 := M();
      EntryFound(m1, root, v);
      if V(pages[page][idx]) { return Remap; }
      assert give ==> PageKept(m, m1, root, ppn);
      StoreEntry(root, page, idx, ppn, perm, give, v);
      RangedOne(m, m1, M(), root, v, ppn, perm, give);
      out := Whole;
    }

    method StoreEntry(root: int, page: int, idx: nat, ppn: int, perm: Flags, ghost give: bool, ghost v: int)
      requires Valid() && LeafTable(root, v) in tbl && tbl[LeafTable(root, v)] == page && idx == I0(v)
      requires Rwx(perm) && Va(root, v) !in tr && Mappable(M(), v, ppn, give)
      modifies this
      ensures Valid() && tr == old(tr)[Va(root, v) := Entry(ppn, perm)] && Gave(old(M()), M(), root, v, 1, ppn, give)
      ensures tbl == old(tbl) && fs == old(fs)
    {
      ghost var m := M();
      InstalledOk(m, root, v, ppn, perm, give);
      InstalledOwned(m, root, v, ppn, perm, give);
      var e := Entry(ppn, perm);
      pages := pages[page := pages[page][idx := e]];
      tr := tr[Va(root, v) := e];
      if give { own := own[ppn := Leaf(root, v)]; }
      assert M() == Installed(m, root, v, ppn, perm, give);
    }

    /** The same for the page after the first `done` of a range of n mapped since m. */
    method MapNext(root: int, va: nat, pa: nat, perm: Flags, ghost give: bool, ghost m: Mem, ghost first: nat, ghost done: nat, ghost n: nat, ghost ppn: nat)
      returns (out: Mapping)
      requires Valid() && L2(root) in tbl && va < MAXVA && Rwx(perm) && va == (first + done) * 4096 && pa / 4096 == ppn + done && done < n
      requires MappableAt(m, first, ppn, first + done, give) && SoFar(m, M(), root, first, done, ppn, perm, give)
      modifies this
      ensures Valid() && L2(root) in tbl && out != Empty
      ensures if out == Whole then SoFar(m, M(), root, first, done + 1, ppn, perm, give)
              else Outcome(m, M(), root, first, n, ppn, perm, give, out, done)
    {
      ghost var m1 := M();
      assert va / 4096 == first + done;
      StillMappable(m, m1, root, first, done, ppn, perm, give);
      out := MapOne(root, va, pa / 4096, perm, give);
      if out == Whole { SoFarNext(m, m1, M(), root, first, done, ppn, perm, give); }
      else { StopsHere(m, m1, M(), root, first, done, n, ppn, perm, give, out); }
    }

    /** Map the pages of [va, va + size) to consecutive physical pages; `done` of them were mapped before the end.
        All are exactly if none was mapped before and there are pages enough for the missing tables. */
    method Mappages(root: int, va: nat, size: nat, pa: nat, perm: Flags, ghost give: bool) returns (out: Mapping, ghost done: nat)
      requires Valid() && L2(root) in tbl && va + size <= MAXVA && Rwx(perm)
      requires forall v :: va / 4096 <= v <= (va + size - 1) / 4096 ==> MappableAt(M(), va / 4096, pa / 4096, v, give)
      modifies this
      ensures Valid() && L2(root) in tbl && (out == Empty <==> size == 0) && (out == Empty ==> M() == old(M()))
      ensures size > 0 ==> Outcome(old(M()), M(), root, va / 4096, (va + size - 1) / 4096 - va / 4096 + 1, pa / 4096, perm, give, out, done)
    {
      if size == 0 { return Empty, 0; }
      ghost var first, n := va / 4096, (va + size - 1) / 4096 - va / 4096 + 1;
      out, done := MapRun(root, va / 4096 * 4096, (va + size - 1) / 4096 * 4096, pa, perm, give, first, n, pa / 4096);
    }

    /** mappages' loop, from a to last. */
    method MapRun(root: int, a0: nat, last: nat, pa: nat, perm: Flags, ghost give: bool, ghost first: nat, ghost n: nat, ghost ppn: nat)
      returns (out: Mapping, ghost done: nat)
      requires Valid() && L2(root) in tbl && Rwx(perm) && n > 0
      requires a0 == first * 4096 && last == (first + n - 1) * 4096 < MAXVA && ppn == pa / 4096
      requires forall v :: first <= v < first + n ==> MappableAt(M(), first, ppn, v, give)
      modifies this
      ensures Valid() && L2(root) in tbl && Outcome(old(M()), M(), root, first, n, ppn, perm, give, out, done)
    {
      ghost var m := M();
      done := 0;
      RangedStarts(m, root, first, ppn, perm, give);
      var a, p := a0, pa;
      while true
        invariant Valid() && L2(root) in tbl && SoFar(m, M(), root, first, done, ppn, perm, give)
        invariant done < n && a == (first + done) * 4096 && 0 <= p && p / 4096 == ppn + done
        decreases n - done
      {
        out := MapNext(root, a, p, perm, give, m, first, done, n, ppn);
        if out != Whole { return; }
        done := done + 1;
        if a == last { return; }
        NextPage(p);
        a, p := a + 4096, p + 4096;
      }
    }

    // ---------- uvmunmap ----------

    /** kfree of the frame of a page that is about to be unmapped. */
    method FreeFrame(ghost root: int, ghost v: int, pa: int)
      requires Core() && OwnedLeaf(M(), root, v) && pa == tr[Va(root, v)].ppn * 4096
      modifies this
      ensures freelist == Top(fs) && M() == Push(old(M()), pa / 4096)
    {
      TakenOk(M(), root, v);
      own := own[pa / 4096 := Busy];
      Kfree(pa);
    }

    /** Remove one entry.  The three panics of uvmunmap's loop are unreachable. */
    method UnmapOne(root: int, va: nat, doFree: bool)
      requires Valid() && L2(root) in tbl && va < MAXVA && Va(root, va / 4096) in tr
      requires tr[Va(root, va / 4096)].Entry? && Has(M(), tr[Va(root, va / 4096)].ppn)
      requires if doFree then OwnedLeaf(M(), root, va / 4096)
               else forall p :: 0 <= p < |own| ==> own[p] != Leaf(root, va / 4096)
      modifies this
      ensures Valid() && tr == old(tr) - {Va(root, va / 4096)}
      ensures Returned(old(M()), M(), root, va / 4096, if doFree then 1 else 0)
    {
      ghost var v, m := va / 4096, M();
      var ok, page, idx := Walk(root, va, false);
      assert ok;
      EntryFound(m, root, v);
      var pte := pages[page][idx];
      assert V(pte) && Rwx(pte.flags);
      DropEntry(root, v, page, idx, pte.ppn * 4096, doFree);
    }

    /** kfree of the frame if asked to, and *pte = 0. */
    method DropEntry(ghost root: int, ghost v: int, page: int, idx: nat, pa: int, doFree: bool)
      requires Valid() && LeafTable(root, v) in tbl && tbl[LeafTable(root, v)] == page && idx == I0(v)
      requires Removable(M(), root, v, doFree) && pa == tr[Va(root, v)].ppn * 4096
      modifies this
      ensures Valid() && tr == old(tr) - {Va(root, v)} && Returned(old(M()), M(), root, v, if doFree then 1 else 0)
    {
      ghost var m := M();
      RemovedOk(m, root, v, doFree);
      RemovedOwned(m, root, v, doFree);
      if doFree { FreeFrame(root, v, pa); }
      pages := pages[page := pages[page][idx := Zero]];
      tr := tr - {Va(root, v)};
      assert M() == Removed(m, root, v, doFree);
    }

    /** The page after the first `done` of a range unmapped since m. */
    method UnmapNext(root: int, va: nat, doFree: bool, ghost m: Mem, ghost first: nat, ghost done: nat)
      requires Valid() && L2(root) in tbl && va < MAXVA && va / 4096 == first + done
      requires Unmapped(m.tr, tr, root, first, done) && Returned(m, M(), root, first, if doFree then done else 0)
      requires Removable(m, root, first + done, doFree)
      modifies this
      ensures Valid() && L2(root) in tbl && Unmapped(m.tr, tr, root, first, done + 1)
      ensures Returned(m, M(), root, first, if doFree then done + 1 else 0)
    {
      ghost var m1, v := M(), first + done;
      RemovableStill(m, m1, root, first, done, doFree);
      UnmapOne(root, va, doFree);
      UnmappedNext(m.tr, m1.tr, root, first, done);
      if doFree { ReturnedNext(m, m1, M(), root, first, done, 1); }
      else { ReturnedNone(m, m1, M(), root, first, v); }
    }

    /** Remove npages entries starting at va, and with doFree the pages they lead to. */
    method Uvmunmap(root: int, va: nat, npages: nat, doFree: bool)
      requires Valid() && L2(root) in tbl && va % 4096 == 0 && va + npages * 4096 <= MAXVA
      requires forall v :: va / 4096 <= v < va / 4096 + npages ==> Removable(M(), root, v, doFree)
      modifies this
      ensures Valid() && Unmapped(old(tr), tr, root, va / 4096, npages)
      ensures Returned(old(M()), M(), root, va / 4096, if doFree then npages else 0)
    {
      ghost var m, first, done := M(), va / 4096, 0;
      var a := va;
      while a < va + npages * 4096
        invariant Valid() && L2(root) in tbl && 0 <= done <= npages && a == va + done * 4096
        invariant Unmapped(m.tr, tr, root, first, done) && Returned(m, M(), root, first, if doFree then done else 0)
      {
        assert a / 4096 == first + done;
        UnmapNext(root, a, doFree, m, first, done);
        done := done + 1;
        a := a + 4096;
      }
    }

    // ---------- uvmalloc, uvmdealloc, uvmcopy ----------

    /** kalloc a page and fill it. */
    method HoldPage(page: Page) returns (mem: int)
      requires Valid()
      modifies this
      ensures mem == 0 <==> old(fs) == []
      ensures mem == 0 ==> M() == old(M())
      ensures mem != 0 ==> mem % 4096 == 0 && mem / 4096 == Last(old(fs)) && 0 < mem / 4096 < |old(own)|
                           && old(own)[mem / 4096] == Free && M() == Hold(old(M()), mem / 4096, page)
      ensures Valid()
    {
      ghost var m := M();
      mem := Kalloc();
      if mem != 0 {
        BusyPage(m, mem / 4096, page);
        pages := pages[mem / 4096 := page];
        assert M() == Hold(m, mem / 4096, page);
        OwnedKept(m, M());
      }
    }

    /** mappages of a single page. */
    method MapPage(root: int, va: nat, pa: nat, perm: Flags) returns (ok: bool)
      requires Valid() && L2(root) in tbl && va % 4096 == 0 && va < MAXVA && Rwx(perm) && Va(root, va / 4096) !in tr
      requires 0 < pa / 4096 < |own| && own[pa / 4096] == Busy
      modifies this
      ensures Valid() && L2(root) in tbl
      ensures if ok then Ranged(old(M()), M(), root, va / 4096, 1, pa / 4096, perm, true)
              else tr == old(tr) && Grew(old(M()), M(), root) && Lacks(old(M()), root, va / 4096, 0, false)
    {
      assert (va + 4096 - 1) / 4096 == va / 4096;
      assert MappableAt(M(), va / 4096, pa / 4096, va / 4096, true);
      var out, done := Mappages(root, va, 4096, pa, perm, true);
      OneOutcome(old(M()), M(), root, va / 4096, pa / 4096, perm, out, done);
      ok := out == Whole;
    }

    /** kalloc a page, fill it and map it at va; give it back if mapping fails. */
    method AddLeaf(root: int, va: nat, page: Page, perm: Flags) returns (ok: bool, ghost p: int)
      requires Valid() && L2(root) in tbl && va % 4096 == 0 && va < MAXVA && Rwx(perm) && Va(root, va / 4096) !in tr
      modifies this
      ensures Valid() && L2(root) in tbl
      ensures if ok then LeafAdded(old(M()), M(), root, va / 4096, p, perm, page) && Spent(old(M()), M(), root, va / 4096, 1, true)
              else tr == old(tr) && Grew(old(M()), M(), root) && Lacks(old(M()), root, va / 4096, 0, true)
    {
      ghost var m, v := M(), va / 4096;
      var mem := HoldPage(page);
      ok, p := mem != 0, mem / 4096;
      if ok {
        ghost var m1 := M();
        ok := MapPage(root, va, mem, perm);
        ghost var m2 := M();
        if ok {
          MappedOne(m1.tr, m2.tr, root, v, 1, p, perm);
          HeldAndGiven(m, m2, root, v, p, perm, page);
          LeafPaid(m, m1, m2, root, v);
        } else {
          LeafLacks(m, m1, root, v);
          assert PageKept(m1, m2, root, p);
          Kfree(mem);
          HeldAndFreed(m, m2, root, p, page);
        }
      }
    }

    /** Shrink from oldsz to newsz. */
    method Uvmdealloc(root: int, oldsz: nat, newsz: nat) returns (sz: nat)
      requires Valid() && L2(root) in tbl && Pages(oldsz) * 4096 <= MAXVA
      requires forall v :: Pages(newsz) <= v < Pages(oldsz) ==> OwnedLeaf(M(), root, v)
      modifies this
      ensures Valid() && L2(root) in tbl && sz == if newsz < oldsz then newsz else oldsz
      ensures if Pages(newsz) < Pages(oldsz)
              then Unmapped(old(tr), tr, root, Pages(newsz), Pages(oldsz) - Pages(newsz))
                   && Returned(old(M()), M(), root, Pages(newsz), Pages(oldsz) - Pages(newsz))
              else M() == old(M())
    {
      if newsz >= oldsz {
        assert Pages(newsz) >= Pages(oldsz);
        return oldsz;
      }
      if Pages(newsz) * 4096 < Pages(oldsz) * 4096 {
        var npages := (Pages(oldsz) * 4096 - Pages(newsz) * 4096) / 4096;
        assert npages == Pages(oldsz) - Pages(newsz) && Pages(newsz) * 4096 / 4096 == Pages(newsz);
        forall v | Pages(newsz) <= v < Pages(oldsz) ensures Removable(M(), root, v, true) {
          assert OwnedLeaf(M(), root, v);
        }
        Uvmunmap(root, Pages(newsz) * 4096, npages, true);
      }
      sz := newsz;
    }

    /** One more page of a range of fresh leaves begun at m. */
    method FillNext(root: int, va: nat, page: Page, perm: Flags,
                    ghost m: Mem, ghost first: nat, ghost perms: seq<Flags>, ghost data: seq<Page>) returns (ok: bool)
      requires Valid() && L2(root) in tbl && va == (first + |data|) * 4096 < MAXVA && Rwx(perm)
      requires Filled(m, M(), root, first, perms, data) && Va(root, first + |data|) !in m.tr && Spent(m, M(), root, first, |data|, true)
      modifies this
      ensures Valid() && L2(root) in tbl
      ensures if ok then Filled(m, M(), root, first, perms + [perm], data + [page]) else Filled(m, M(), root, first, perms, data)
      ensures if ok then Spent(m, M(), root, first, |data| + 1, true) else Lacks(m, root, first, |data|, true)
    {
      ghost var m1, v := M(), first + |data|;
      assert va / 4096 == v;
      assert Same(m.tr, tr, Va(root, v));
      ghost var p;
      ok, p := AddLeaf(root, va, page, perm);
      if ok { FillGoesOn(m, m1, M(), root, first, perms, data, p, perm, page); }
      else { FillStops(m, m1, M(), root, first, perms, data); }
    }

    /** Unmap and free the fresh leaves begun at m. */
    method Rollback(root: int, a: nat, start: nat,
                    ghost m: Mem, ghost first: nat, ghost perms: seq<Flags>, ghost data: seq<Page>)
      requires Valid() && L2(root) in tbl && a == (first + |data|) * 4096 <= MAXVA && start == first * 4096
      requires Filled(m, M(), root, first, perms, data) && LeafOk(m)
      requires forall v :: first <= v < first + |data| ==> Va(root, v) !in m.tr
      modifies this
      ensures Valid() && L2(root) in tbl && tr == m.tr && Grew(m, M(), root)
    {
      ghost var m1 := M();
      assert Pages(a) == first + |data| && Pages(start) == first;
      forall v | first <= v < first + |data| ensures OwnedLeaf(M(), root, v) {
        assert FreshAt(M(), root, first, perms, data, v - first);
      }
      var _ := Uvmdealloc(root, a, start);
      Undo(m, m1, M(), root, first, perms, data);
    }

    /** Grow from oldsz to newsz.  On failure every translation is as before. */
    method Uvmalloc(root: int, oldsz: nat, newsz: nat) returns (sz: nat, ghost perms: seq<Flags>, ghost data: seq<Page>)
      requires Valid() && L2(root) in tbl && oldsz <= MAXVA && newsz <= MAXVA
      requires forall v :: Pages(oldsz) <= v < Pages(newsz) ==> Va(root, v) !in tr
      modifies this
      ensures Valid() && L2(root) in tbl
      ensures newsz < oldsz ==> sz == oldsz && M() == old(M())
      ensures newsz >= oldsz ==> sz == newsz || sz == 0
      ensures newsz >= oldsz ==> Pages(newsz) >= Pages(oldsz)
      ensures newsz >= oldsz ==> (sz == newsz <==> Price(old(M()), root, Pages(oldsz), Pages(newsz) - Pages(oldsz), true) <= |old(fs)|)
      ensures newsz >= oldsz && sz != newsz ==> tr == old(tr) && Grew(old(M()), M(), root)
      ensures newsz >= oldsz && sz == newsz ==>
                Filled(old(M()), M(), root, Pages(oldsz), perms, data) && Zeroed(perms, data, Pages(newsz) - Pages(oldsz))
    {
      sz, perms, data := oldsz, [], [];
      if newsz < oldsz { return; }
      ghost var n := Pages(newsz) - Pages(oldsz);
      PagesBetween(newsz);
      PagesBetween(oldsz);
      var ok;
      ok, perms, data := GrowPages(root, Pages(oldsz) * 4096, newsz, Pages(oldsz), n);
      sz := if ok then newsz else 0;
      if ok { Afforded(old(M()), M(), root, Pages(oldsz), n, true); } else { Unaffordable(old(M()), root, Pages(oldsz), |data|, n, true); }
    }

    /** uvmalloc's loop, with what it does when memory runs out; n pages start at addresses below newsz. */
    method GrowPages(root: int, start: nat, newsz: nat, ghost first: nat, ghost n: nat) returns (ok: bool, ghost perms: seq<Flags>, ghost data: seq<Page>)
      requires Valid() && L2(root) in tbl && start == first * 4096 && newsz <= MAXVA
      requires (n > 0 ==> (first + n - 1) * 4096 < newsz) && newsz <= (first + n) * 4096
      requires forall v :: first <= v < first + n ==> Va(root, v) !in tr
      modifies this
      ensures Valid() && L2(root) in tbl
      ensures ok ==> Filled(old(M()), M(), root, first, perms, data) && Zeroed(perms, data, n) && Spent(old(M()), M(), root, first, n, true)
      ensures !ok ==> |data| < n && tr == old(tr) && Grew(old(M()), M(), root) && Lacks(old(M()), root, first, |data|, true)
    {
      ok, perms, data := true, [], [];
      ghost var m := M();
      NothingSpent(m, root, first, true);
      var a := start;
      while a < newsz
        invariant Valid() && L2(root) in tbl && a == (first + |data|) * 4096 && |data| <= n && ok
        invariant Filled(m, M(), root, first, perms, data) && Zeroed(perms, data, |data|) && Spent(m, M(), root, first, |data|, true)
      {
        assert |data| < n;
        ok := FillNext(root, a, Fill(Zero), RWXU, m, first, perms, data);
        if !ok {
          Rollback(root, a, start, m, first, perms, data);
          return;
        }
        ZeroedNext(perms, data);
        perms, data := perms + [RWXU], data + [Fill(Zero)];
        a := a + 4096;
      }
      assert |data| == n;
    }

    /** uvmalloc and then walkaddr: every address of the new part leads the user to a page of zeros, another one
        for every page. */
    method AllocThenLook(root: int, oldsz: nat, newsz: nat, va: nat, va': nat) returns (sz: nat, pa: int, pa': int)
      requires Valid() && L2(root) in tbl && oldsz <= newsz <= MAXVA
      requires forall v :: Pages(oldsz) <= v < Pages(newsz) ==> Va(root, v) !in tr
      requires oldsz <= va / 4096 * 4096 && va < newsz && oldsz <= va' / 4096 * 4096 && va' < newsz
      modifies this
      ensures Valid() && (sz == newsz || sz == 0)
      ensures sz == newsz && newsz > 0 ==> 0 < pa / 4096 < |pages| && pages[pa / 4096] == Fill(Zero) && (va / 4096 != va' / 4096 ==> pa != pa')
    {
      ghost var perms, data;
      PageWithin(oldsz, newsz, va);
      PageWithin(oldsz, newsz, va');
      sz, perms, data := Uvmalloc(root, oldsz, newsz);
      pa := Walkaddr(root, va);
      pa' := Walkaddr(root, va');
      if sz == newsz && newsz > 0 {
        NewPage(M(), root, Pages(oldsz), perms, data, va / 4096, pa);
        NewPage(M(), root, Pages(oldsz), perms, data, va' / 4096, pa');
      }
    }

    /** Copy the first sz bytes' pages of tree `from` into tree `to`.  On failure the
        child has no user page and every translation is as before. */
    method Uvmcopy(from: int, to: int, sz: nat) returns (r: int, ghost perms: seq<Flags>, ghost data: seq<Page>)
      requires Valid() && L2(from) in tbl && L2(to) in tbl && from != to && sz <= MAXVA
      requires forall v :: 0 <= v < Pages(sz) ==> OwnedLeaf(M(), from, v) && Va(to, v) !in tr
      modifies this
      ensures Valid() && L2(to) in tbl && (r == 0 || r == -1)
      ensures r == 0 <==> Price(old(M()), to, 0, Pages(sz), true) <= |old(fs)|
      ensures r == -1 ==> tr == old(tr) && Grew(old(M()), M(), to)
      ensures r == 0 ==> Filled(old(M()), M(), to, 0, perms, data) && Copied(old(M()), from, perms, data, Pages(sz))
    {
      var ok;
      var i;
      PagesBetween(sz);
      ok, i, perms, data := CopyPages(from, to, sz, Pages(sz));
      if ok {
        Afforded(old(M()), M(), to, 0, Pages(sz), true);
        return 0, perms, data;
      }
      Unaffordable(old(M()), to, 0, |data|, Pages(sz), true);
      Rollback(to, i, 0, old(M()), 0, perms, data);
      r := -1;
    }

    /** uvmcopy's loop, up to where memory runs out; n pages start below sz. */
    method CopyPages(from: int, to: int, sz: nat, ghost n: nat) returns (ok: bool, i: nat, ghost perms: seq<Flags>, ghost data: seq<Page>)
      requires Valid() && L2(from) in tbl && L2(to) in tbl && from != to && sz <= MAXVA
      requires (n > 0 ==> (n - 1) * 4096 < sz) && sz <= n * 4096
      requires forall v :: 0 <= v < n ==> OwnedLeaf(M(), from, v) && Va(to, v) !in tr
      modifies this
      ensures Valid() && L2(to) in tbl
      ensures Filled(old(M()), M(), to, 0, perms, data) && i == |data| * 4096
      ensures if ok then Copied(old(M()), from, perms, data, n) && Spent(old(M()), M(), to, 0, n, true)
              else |data| < n && Lacks(old(M()), to, 0, |data|, true)
    {
      ghost var m := M();
      NothingSpent(m, to, 0, true);
      i := 0;
      ok, perms, data := true, [], [];
      while i < sz
        invariant Valid() && L2(from) in tbl && L2(to) in tbl && i == |data| * 4096 && |data| <= n && ok
        invariant Filled(m, M(), to, 0, perms, data) && Copied(m, from, perms, data, |data|) && Spent(m, M(), to, 0, |data|, true)
      {
        assert |data| < n;
        ghost var perm, page;
        ok, perm, page := CopyNext(from, to, i, m, perms, data);
        if !ok { return; }
        perms, data := perms + [perm], data + [page];
        i := i + 4096;
      }
      assert |data| == n;
    }

    /** One turn of uvmcopy's loop. */
    method CopyNext(from: int, to: int, i: nat, ghost m: Mem, ghost perms: seq<Flags>, ghost data: seq<Page>)
      returns (ok: bool, ghost perm: Flags, ghost page: Page)
      requires Valid() && Wf(m) && L2(from) in tbl && L2(to) in tbl && from != to && i == |data| * 4096 < MAXVA
      requires Filled(m, M(), to, 0, perms, data) && Copied(m, from, perms, data, |data|) && Spent(m, M(), to, 0, |data|, true)
      requires OwnedLeaf(m, from, |data|) && Va(to, |data|) !in m.tr
      modifies this
      ensures Valid() && L2(from) in tbl && L2(to) in tbl
      ensures ok ==> Filled(m, M(), to, 0, perms + [perm], data + [page]) && Copied(m, from, perms + [perm], data + [page], |data| + 1)
      ensures ok ==> Spent(m, M(), to, 0, |data| + 1, true)
      ensures !ok ==> Filled(m, M(), to, 0, perms, data) && Lacks(m, to, 0, |data|, true)
    {
      var pg, flags := SourcePage(from, i, to, m, perms, data);
      ok := FillNext(to, i, pg, flags, m, 0, perms, data);
      CopiedNext(m, from, perms, data, flags, pg);
      perm, page := flags, pg;
    }

    /** The page and flags that `from` has at va, unchanged since m; uvmcopy's two
        panics are unreachable. */
    method SourcePage(from: int, va: nat, ghost to: int, ghost m: Mem, ghost perms: seq<Flags>, ghost data: seq<Page>)
      returns (page: Page, flags: Flags)
      requires Valid() && Wf(m) && L2(from) in tbl && from != to && va == |data| * 4096 < MAXVA
      requires Filled(m, M(), to, 0, perms, data) && OwnedLeaf(m, from, |data|)
      modifies this
      ensures M() == old(M()) && freelist == old(freelist)
      ensures Rwx(flags) && FreshLeaf(m, from, |data|, flags, page)
    {
      ghost var v := |data|;
      assert va / 4096 == v;
      assert Same(m.tr, tr, Va(from, v));
      assert FilledAt(m, M(), to, 0, |data|, m.tr[Va(from, v)].ppn);
      var ok, p, idx := Walk(from, va, false);
      assert ok;
      EntryFound(M(), from, v);
      var pte := pages[p][idx];
      page, flags := pages[pte.ppn], pte.flags;
    }

    // ---------- freewalk, uvmfree ----------

    /** kfree of a table page that is no longer in use. */
    method FreeTable(ghost n: Node, p: int)
      requires n in tbl && tbl[n] == p && Has(M(), p) && |pages| == |own| == |pos| && freelist == Top(fs)
      requires Owned(M()) && own[p] == Table(n)
      modifies this
      ensures M() == Drop(old(M()), n) && freelist == Top(fs) && Owned(M())
    {
      pages := pages[p := Fill(FREE_JUNK)[0 := Link(freelist)]];
      freelist := p * 4096;
      fs, pos, own, tbl := fs + [p], pos[p := |fs|], own[p := Free], tbl - {n};
      OwnedKept(old(M()), M());
    }

    /** Free table n at page p and all tables below it.  The panic for a leaf is
        unreachable when no page of the tree is mapped.  Entry k of x leads to n. */
    method Freewalk(ghost n: Node, p: int, ghost x: Node, ghost k: nat)
      requires Valid() && n in tbl && tbl[n] == p && NoLeaf(tr, n.r)
      requires n.L2? || (!x.L0? && n == Child(x, k))
      modifies this
      ensures Cut(old(M()), M(), n) && freelist == Top(fs) && Owned(M())
      ensures WfBut(M(), x, k) && (n.L2? ==> Valid())
      decreases if n.L2? then 2 else if n.L1? then 1 else 0
    {
      ghost var m := M();
      var i := 0;
      while i < 512
        invariant 0 <= i <= 512 && Valid() && n in tbl && tbl[n] == p && Pruned(m, M(), n, i)
      {
        ghost var m1 := M();
        FreeEntry(n, p, i);
        if n.L0? || Child(n, i) !in m1.tbl { PrunedSkip(m, m1, n, i); }
        else { PrunedNext(m, m1, M(), n, i); }
        i := i + 1;
      }
      ghost var m1 := M();
      NoChildren(m, m1, n);
      DropOk(m1, n, x, k);
      CutAfter(m, m1, n);
      FreeTable(n, p);
    }

    /** One turn of freewalk's loop. */
    method FreeEntry(ghost n: Node, p: int, i: nat)
      requires Valid() && n in tbl && tbl[n] == p && NoLeaf(tr, n.r) && i < NPTE
      modifies this
      ensures Valid() && n in tbl && tbl[n] == p
      ensures if n.L0? || Child(n, i) !in old(tbl) then M() == old(M()) else Cut(old(M()), M(), Child(n, i))
      decreases if n.L2? then 2 else if n.L1? then 1 else 0, 0
    {
      ghost var m := M();
      ChildFound(m, n, i);
      var pte := pages[p][i];
      if V(pte) {
        assert !Rwx(pte.flags);
        Freewalk(Child(n, i), pte.ppn, n, i);
        ClearEntry(n, p, i, m);
      }
    }

    method ClearEntry(ghost n: Node, p: int, i: nat, ghost m: Mem)
      requires !n.L0? && i < NPTE && n in tbl && tbl[n] == p && freelist == Top(fs)
      requires WfBut(M(), n, i) && Cut(m, M(), Child(n, i)) && Owned(M())
      modifies this`pages
      ensures Valid() && Cut(m, M(), Child(n, i))
    {
      ghost var m1 := M();
      assert Child(n, i) !in tbl && own[tbl[n]] == Table(n);
      ClearedOk(m1, n, i);
      pages := pages[p := pages[p][i := Zero]];
      CutCleared(m, m1, M(), n, i);
      OwnedKept(m1, M());
    }

    /** Free the leaves below sz and then the whole tree.  With no other page mapped,
        every page the tree owned comes back and nothing else changes. */
    method Uvmfree(root: int, sz: nat)
      requires Valid() && L2(root) in tbl && sz <= MAXVA
      requires forall v :: 0 <= v < Pages(sz) ==> OwnedLeaf(M(), root, v)
      requires forall v :: v < 0 || Pages(sz) <= v ==> Va(root, v) !in tr
      modifies this
      ensures Valid() && Freed(old(M()), M(), root)
    {
      ghost var m := M();
      if sz > 0 {
        forall v | 0 <= v < Pages(sz) ensures Removable(M(), root, v, true) { assert OwnedLeaf(M(), root, v); }
        Uvmunmap(root, 0, Pages(sz), true);
      }
      ghost var m1 := M();
      LeavesGone(m, m1, root, Pages(sz));
      assert NodeOk(m1, L2(root));
      Freewalk(L2(root), root, L2(root), 0);
      TreeGone(m, m1, M(), root, Pages(sz));
    }
  }

  lemma PagesBetween(a: nat)
    ensures (Pages(a) > 0 ==> (Pages(a) - 1) * 4096 < a) && a <= Pages(a) * 4096
  {}

  /** The pages and flags of the first n pages of tree r. */
  ghost predicate Copied(m: Mem, r: int, perms: seq<Flags>, data: seq<Page>, n: int) {
    |perms| == |data| == n && forall i :: 0 <= i < n ==> FreshAt(m, r, 0, perms, data, i)
  }

  lemma CopiedNext(m: Mem, r: int, perms: seq<Flags>, data: seq<Page>, flags: Flags, page: Page)
    requires Copied(m, r, perms, data, |data|) && FreshLeaf(m, r, |data|, flags, page)
    ensures Copied(m, r, perms + [flags], data + [page], |data| + 1)
  {
    forall i | 0 <= i <= |data| ensures FreshAt(m, r, 0, perms + [flags], data + [page], i) {
      if i < |data| { assert FreshAt(m, r, 0, perms, data, i); }
    }
  }

  /** What freewalk finds in entry i of table n of a tree without mapped pages. */
  lemma ChildFound(m: Mem, n: Node, i: nat)
    requires Wf(m) && n in m.tbl && i < NPTE && NoLeaf(m.tr, n.r)
    ensures 0 <= m.tbl[n] < |m.pages|
    ensures var e := m.pages[m.tbl[n]][i];
            if n.L0? || Child(n, i) !in m.tbl then !V(e) else e == Entry(m.tbl[Child(n, i)], NOFLAGS)
  {
    assert EntryOk(m, n, i);
    if n.L0? { BareEntry(m, n, i); }
  }

  lemma NoChildren(m: Mem, m1: Mem, n: Node)
    requires Pruned(m, m1, n, NPTE)
    ensures forall i :: 0 <= i < NPTE && !n.L0? ==> Child(n, i) !in m1.tbl
  {
    forall i | 0 <= i < NPTE && !n.L0? ensures Child(n, i) !in m1.tbl {
      assert Below(Child(n, i), n, NPTE);
    }
  }

  /** Clearing the parent's entry changes no page's use. */
  lemma CutCleared(m: Mem, m1: Mem, m2: Mem, n: Node, i: nat)
    requires !n.L0? && i < NPTE && Cut(m, m1, Child(n, i)) && n in m1.tbl && Has(m1, m1.tbl[n]) && m1.own[m1.tbl[n]] == Table(n)
    requires 0 <= m1.tbl[n] < |m1.pages|
    requires m2 == m1.(pages := m1.pages[m1.tbl[n] := m1.pages[m1.tbl[n]][i := Zero]])
    ensures Cut(m, m2, Child(n, i))
  {
    var c := Child(n, i);
    forall q | 0 <= q < |m.own| ensures PrunedAt(m, m2, m.own[q].Table? && Under(m.own[q].n, c), q) {
      assert PrunedAt(m, m1, m.own[q].Table? && Under(m.own[q].n, c), q);
    }
  }

  /** Every page that tree r owned, as table or as leaf, is free in m'; every other page
      keeps its use and, unless it is a table, its contents; no other translation changed. */
  ghost predicate Freed(m: Mem, m': Mem, r: int) {
    && |m.own| == |m'.own| == |m.pages| == |m'.pages|
    && (forall n :: n in m'.tbl <==> n in m.tbl && n.r != r)
    && (forall a: Va :: a in m'.tr <==> a in m.tr && a.r != r)
    && (forall a: Va :: a in m'.tr && a in m.tr ==> m'.tr[a] == m.tr[a])
    && forall q :: 0 <= q < |m.own| ==> PrunedAt(m, m', OfTree(m.own[q], r), q)
  }

  predicate OfTree(o: Owner, r: int) { (o.Table? && o.n.r == r) || (o.Leaf? && o.r == r) }

  /** The pages that tree r has, as tables and as frames. */
  ghost function PagesOfTree(m: Mem, r: int): set<int> { set p | 0 <= p < |m.own| && OfTree(m.own[p], r) }

  /** uvmfree leaks nothing: the free list grows by as many pages as the tree had. */
  lemma FreedCount(m: Mem, m': Mem, r: int)
    requires Wf(m) && Wf(m') && Freed(m, m', r)
    ensures |m'.fs| == |m.fs| + |PagesOfTree(m, r)|
  {
    FreeCount(m);
    FreeCount(m');
    FreedPages(m, m', r);
  }

  lemma FreedPages(m: Mem, m': Mem, r: int)
    requires Freed(m, m', r)
    ensures |PagesOf(m'.own, AsFree)| == |PagesOf(m.own, AsFree)| + |PagesOfTree(m, r)|
  {
    var a, b, c := PagesOf(m.own, AsFree), PagesOfTree(m, r), PagesOf(m'.own, AsFree);
    forall p ensures p in c <==> p in a || p in b {
      if 0 <= p < |m.own| { assert PrunedAt(m, m', OfTree(m.own[p], r), p); }
    }
    assert c == a + b && a !! b;
  }

  lemma LeavesGone(m: Mem, m1: Mem, r: int, n: nat)
    requires n > 0 ==> Unmapped(m.tr, m1.tr, r, 0, n)
    requires n == 0 ==> m1.tr == m.tr
    requires forall v :: v < 0 || n <= v ==> Va(r, v) !in m.tr
    ensures NoLeaf(m1.tr, r)
  {
    forall v ensures Va(r, v) !in m1.tr {
      if v < 0 || n <= v { assert n > 0 ==> Same(m.tr, m1.tr, Va(r, v)); }
    }
  }

  lemma TreeGone(m: Mem, m1: Mem, m2: Mem, r: int, n: nat)
    requires LeafOk(m)
    requires n > 0 ==> Unmapped(m.tr, m1.tr, r, 0, n) && Returned(m, m1, r, 0, n)
    requires n == 0 ==> m1 == m
    requires forall v :: v < 0 || n <= v ==> Va(r, v) !in m.tr
    requires Cut(m1, m2, L2(r))
    ensures Freed(m, m2, r)
  {
    forall a: Va ensures (a in m2.tr <==> a in m.tr && a.r != r) && (a in m2.tr && a in m.tr ==> m2.tr[a] == m.tr[a]) {
      if n > 0 && (a.r != r || a.v < 0 || n <= a.v) { assert Same(m.tr, m1.tr, a); }
      assert a == Va(a.r, a.v);
    }
    forall q | 0 <= q < |m.own| ensures PrunedAt(m, m2, OfTree(m.own[q], r), q) {
      assert n > 0 ==> ReturnedAt(m, m1, r, 0, n, q);
      assert PrunedAt(m1, m2, m1.own[q].Table? && Under(m1.own[q].n, L2(r)), q);
      assert m.own[q].Leaf? ==> Maps(m.tr, m.own[q].r, m.own[q].v, q);
    }
  }

  /** n zeroed pages with all permissions. */
  lemma FillGoesOn(m: Mem, m1: Mem, m2: Mem, r: int, first: int, perms: seq<Flags>, data: seq<Page>, p: int, perm: Flags, page: Page)
    requires Filled(m, m1, r, first, perms, data) && LeafAdded(m1, m2, r, first + |data|, p, perm, page)
    requires Spent(m, m1, r, first, |data|, true) && Spent(m1, m2, r, first + |data|, 1, true) && Va(r, first + |data|) !in m1.tr
    ensures Filled(m, m2, r, first, perms + [perm], data + [page]) && Spent(m, m2, r, first, |data| + 1, true)
  {
    FilledNext(m, m1, m2, r, first, perms, data, p, perm, page);
    SpentNext(m, m1, m2, r, first, |data|, true);
  }

  lemma FillStops(m: Mem, m1: Mem, m2: Mem, r: int, first: int, perms: seq<Flags>, data: seq<Page>)
    requires Filled(m, m1, r, first, perms, data) && Grew(m1, m2, r) && m2.tr == m1.tr
    requires Spent(m, m1, r, first, |data|, true) && Lacks(m1, r, first + |data|, 0, true)
    ensures Filled(m, m2, r, first, perms, data) && Lacks(m, r, first, |data|, true)
  {
    FilledThenGrew(m, m1, m2, r, first, perms, data);
    StillLacks(m, m1, r, first, |data|, true);
  }

  ghost predicate Zeroed(perms: seq<Flags>, data: seq<Page>, n: int) {
    |perms| == |data| == n && forall i :: 0 <= i < n ==> perms[i] == RWXU && data[i] == Fill(Zero)
  }

  lemma ZeroedNext(perms: seq<Flags>, data: seq<Page>)
    requires Zeroed(perms, data, |data|)
    ensures Zeroed(perms + [RWXU], data + [Fill(Zero)], |data| + 1)
  {}

  /** FilledUndone, also when there was nothing to undo. */
  lemma Undo(m: Mem, m1: Mem, m2: Mem, r: int, first: int, perms: seq<Flags>, data: seq<Page>)
    requires Filled(m, m1, r, first, perms, data) && LeafOk(m)
    requires if first < first + |data| then Unmapped(m1.tr, m2.tr, r, first, |data|) && Returned(m1, m2, r, first, |data|) else m2 == m1
    requires forall v :: first <= v < first + |data| ==> Va(r, v) !in m.tr
    ensures m2.tr == m.tr && Grew(m, m2, r)
  {
    if |data| == 0 {
      assert forall a: Va :: Same(m1.tr, m2.tr, a);
      assert forall p :: 0 <= p < |m1.own| ==> ReturnedAt(m1, m2, r, first, 0, p);
    }
    FilledUndone(m, m1, m2, r, first, perms, data);
  }

  const RWXU := Flags(true, true, true, true)

  /** The pages counted for a size are those with a byte below it. */
  lemma PageWithin(oldsz: nat, newsz: nat, va: nat)
    requires oldsz <= va / 4096 * 4096 && va < newsz
    ensures Pages(oldsz) <= va / 4096 < Pages(newsz)
  {}

  /** A page that uvmalloc has mapped is open to the user. */
  lemma NewPage(m: Mem, r: int, first: int, perms: seq<Flags>, data: seq<Page>, v: int, pa: int)
    requires Zeroed(perms, data, |data|) && first <= v < first + |data| && |m.own| == |m.pages| && (|m.own| > 0 ==> m.own[0] == Busy)
    requires forall i :: 0 <= i < |data| ==> FreshAt(m, r, first, perms, data, i)
    requires pa == if Va(r, v) in m.tr && m.tr[Va(r, v)].Entry? && m.tr[Va(r, v)].flags.u then m.tr[Va(r, v)].ppn * 4096 else 0
    ensures 0 < pa / 4096 < |m.pages| && m.own[pa / 4096] == Leaf(r, v) && m.pages[pa / 4096] == Fill(Zero)
  {
    assert FreshAt(m, r, first, perms, data, v - first);
    assert m.tr[Va(r, v)].ppn * 4096 / 4096 == m.tr[Va(r, v)].ppn;
  }

  /** Page v may be mapped to frame p: p is in use and nobody's, or v is a page without a frame of its own. */
  ghost predicate Mappable(m: Mem, v: int, p: int, give: bool) {
    if give then 0 < p < |m.own| && m.own[p] == Busy else Special(v)
  }

  /** How mappages ends: done, without memory for a table, or in one of its two panics. */
  datatype Mapping = Whole | NoMemory | Remap | Empty

  lemma NextPage(a: int)
    ensures (a + 4096) / 4096 == a / 4096 + 1
  {}

  ghost predicate MappableAt(m: Mem, first: int, ppn: int, v: int, give: bool) { Mappable(m, v, ppn + v - first, give) }

  // ---------- a range of mappings ----------

  /** From m to m' the pages [first, first + n) of tree r were mapped to frames ppn, ppn + 1, ..., at the price of
      the tables that were missing. */
  ghost predicate Ranged(m: Mem, m': Mem, r: int, first: int, n: nat, ppn: int, perm: Flags, give: bool) {
    Stopped(m, m', r, first, n, ppn, perm, give) && Spent(m, m', r, first, n, false)
  }

  /** The same, but some tables may have been made for nothing. */
  ghost predicate Stopped(m: Mem, m': Mem, r: int, first: int, n: nat, ppn: int, perm: Flags, give: bool) {
    Gave(m, m', r, first, n, ppn, give) && Mapped(m.tr, m'.tr, r, first, n, ppn, perm)
  }

  ghost predicate Vacant(tr: map<Va, Word>, r: int, v: int) { Va(r, v) !in tr }

  /** The first n pages were vacant and have been mapped. */
  ghost predicate SoFar(m: Mem, m': Mem, r: int, first: int, n: nat, ppn: int, perm: Flags, give: bool) {
    Ranged(m, m', r, first, n, ppn, perm, give) && forall v :: first <= v < first + n ==> Vacant(m.tr, r, v)
  }

  /** How mappages of n pages ends: all of them are mapped, or `done` of them and memory is exhausted or the next
      one was mapped before. */
  ghost predicate Outcome(m: Mem, m': Mem, r: int, first: int, n: nat, ppn: int, perm: Flags, give: bool, out: Mapping, done: nat) {
    if out == Whole then done == n && SoFar(m, m', r, first, n, ppn, perm, give)
    else
      && done < n && Stopped(m, m', r, first, done, ppn, perm, give) && (forall v :: first <= v < first + done ==> Vacant(m.tr, r, v))
      && (out == Remap || out == NoMemory) && (out == Remap <==> !Vacant(m.tr, r, first + done))
      && (out == NoMemory ==> m'.fs == [] && Lacks(m, r, first, done, false))
  }

  /** So mappages succeeds exactly if none of the pages was mapped and there are pages for the missing tables. */
  lemma WholeExactly(m: Mem, m': Mem, r: int, first: int, n: nat, ppn: int, perm: Flags, give: bool, out: Mapping, done: nat)
    requires Outcome(m, m', r, first, n, ppn, perm, give, out, done)
    ensures out == Whole <==> (forall v :: first <= v < first + n ==> Vacant(m.tr, r, v)) && Price(m, r, first, n, false) <= |m.fs|
  {
    if out == Whole { Afforded(m, m', r, first, n, false); }
    if out == NoMemory { Unaffordable(m, r, first, done, n, false); }
  }

  lemma RangedStarts(m: Mem, r: int, first: int, ppn: int, perm: Flags, give: bool)
    requires |m.own| == |m.pages|
    ensures Ranged(m, m, r, first, 0, ppn, perm, give)
  {
    forall a: Va ensures MappedAt(m.tr, m.tr, r, first, 0, ppn, perm, a) {}
    forall p | 0 <= p < |m.own| ensures GaveAt(m, m, r, first, 0, ppn, give, p) {}
    NothingSpent(m, r, first, false);
  }

  lemma RangedOne(m: Mem, m1: Mem, m2: Mem, r: int, v: int, ppn: int, perm: Flags, give: bool)
    requires Grew(m, m1, r) && m1.tr == m.tr && Spent(m, m1, r, v, 1, false) && Gave(m1, m2, r, v, 1, ppn, give)
    requires m2.tr == m1.tr[Va(r, v) := Entry(ppn, perm)] && m2.tbl == m1.tbl && m2.fs == m1.fs
    ensures Ranged(m, m2, r, v, 1, ppn, perm, give)
  {
    GaveNone(m, m1, r, v, ppn, give);
    GaveNext(m, m1, m2, r, v, 0, 1, ppn, give);
    forall a: Va ensures MappedAt(m.tr, m2.tr, r, v, 1, ppn, perm, a) {}
    SpentSame(m, m1, m2, r, v, 1, false);
  }

  lemma RangedNext(m: Mem, m1: Mem, m2: Mem, r: int, first: int, n: nat, ppn: int, perm: Flags, give: bool)
    requires Ranged(m, m1, r, first, n, ppn, perm, give) && Ranged(m1, m2, r, first + n, 1, ppn + n, perm, give)
    ensures Ranged(m, m2, r, first, n + 1, ppn, perm, give)
  {
    GaveNext(m, m1, m2, r, first, n, 1, ppn, give);
    MappedOne(m1.tr, m2.tr, r, first + n, 1, ppn + n, perm);
    MappedNext(m.tr, m1.tr, r, first, n, ppn, perm);
    SpentNext(m, m1, m2, r, first, n, false);
  }

  lemma SoFarNext(m: Mem, m1: Mem, m2: Mem, r: int, first: int, n: nat, ppn: int, perm: Flags, give: bool)
    requires SoFar(m, m1, r, first, n, ppn, perm, give) && Ranged(m1, m2, r, first + n, 1, ppn + n, perm, give) && Vacant(m.tr, r, first + n)
    ensures SoFar(m, m2, r, first, n + 1, ppn, perm, give)
  {
    RangedNext(m, m1, m2, r, first, n, ppn, perm, give);
  }

  lemma StopsHere(m: Mem, m1: Mem, m2: Mem, r: int, first: int, done: nat, n: nat, ppn: int, perm: Flags, give: bool, out: Mapping)
    requires SoFar(m, m1, r, first, done, ppn, perm, give) && done < n && Grew(m1, m2, r) && m2.tr == m1.tr
    requires (out == Remap || out == NoMemory) && (out == Remap <==> !Vacant(m.tr, r, first + done))
    requires out == NoMemory ==> m2.fs == [] && Lacks(m1, r, first + done, 0, false)
    ensures Outcome(m, m2, r, first, n, ppn, perm, give, out, done)
  {
    RangedStops(m, m1, m2, r, first, done, ppn, perm, give);
    if out == NoMemory { StillLacks(m, m1, r, first, done, false); }
  }

  lemma RangedStops(m: Mem, m1: Mem, m2: Mem, r: int, first: int, n: nat, ppn: int, perm: Flags, give: bool)
    requires Ranged(m, m1, r, first, n, ppn, perm, give) && Grew(m1, m2, r) && m2.tr == m1.tr
    ensures Stopped(m, m2, r, first, n, ppn, perm, give)
  {
    GaveNone(m1, m2, r, first + n, ppn + n, give);
    GaveNext(m, m1, m2, r, first, n, 0, ppn, give);
  }

  lemma StoppedNone(m: Mem, m': Mem, r: int, first: int, ppn: int, perm: Flags, give: bool)
    requires Stopped(m, m', r, first, 0, ppn, perm, give)
    ensures m'.tr == m.tr && Grew(m, m', r)
  {
    GaveNone(m, m', r, first, ppn, give);
    MappedOne(m.tr, m'.tr, r, first, 0, ppn, perm);
  }

  lemma OneOutcome(m: Mem, m': Mem, r: int, v: int, ppn: int, perm: Flags, out: Mapping, done: nat)
    requires Outcome(m, m', r, v, 1, ppn, perm, true, out, done) && Va(r, v) !in m.tr
    ensures if out == Whole then Ranged(m, m', r, v, 1, ppn, perm, true) else m'.tr == m.tr && Grew(m, m', r) && Lacks(m, r, v, 0, false)
  {
    assert Vacant(m.tr, r, v);
    if out != Whole { StoppedNone(m, m', r, v, ppn, perm, true); }
  }

  lemma StillMappable(m: Mem, m1: Mem, r: int, first: int, n: nat, ppn: int, perm: Flags, give: bool)
    requires Stopped(m, m1, r, first, n, ppn, perm, give) && MappableAt(m, first, ppn, first + n, give)
    ensures Mappable(m1, first + n, ppn + n, give) && (Va(r, first + n) in m1.tr <==> !Vacant(m.tr, r, first + n))
  {
    assert MappedAt(m.tr, m1.tr, r, first, n, ppn, perm, Va(r, first + n));
    assert give ==> GaveAt(m, m1, r, first, n, ppn, give, ppn + n);
  }

  lemma OwnedGrew(m: Mem, m': Mem, r: int)
    requires Owned(m) && Grew(m, m', r) && m'.tr == m.tr
    ensures Owned(m')
  {
    forall p | 0 <= p < |m.own| && m.own[p].Leaf? ensures m'.own[p] == m.own[p] { assert PageKept(m, m', r, p); }
    OwnedKept(m, m');
  }

  /** uvmunmap is about to free the frame: it no longer belongs to the mapping. */
  lemma TakenOk(m: Mem, r: int, v: int)
    requires Wf(m) && OwnedLeaf(m, r, v)
    ensures var p := m.tr[Va(r, v)].ppn; p > 0 && Wf(m.(own := m.own[p := Busy])) && Push(m.(own := m.own[p := Busy]), p) == Push(m, p)
  {
    var p := m.tr[Va(r, v)].ppn;
    var m' := m.(own := m.own[p := Busy]);
    TablesKept(m, m');
    FreeKept(m, m');
    assert m'.own[p := Free] == m.own[p := Free];
  }

  /** Page v of tree r can be unmapped: it is mapped, and freeing the page is right. */
  ghost predicate Removable(m: Mem, r: int, v: int, doFree: bool) {
    && Va(r, v) in m.tr && m.tr[Va(r, v)].Entry? && Has(m, m.tr[Va(r, v)].ppn)
    && if doFree then OwnedLeaf(m, r, v) else forall p :: 0 <= p < |m.own| ==> m.own[p] != Leaf(r, v)
  }

  lemma RemovableStill(m: Mem, m1: Mem, r: int, first: int, done: nat, doFree: bool)
    requires Unmapped(m.tr, m1.tr, r, first, done) && Returned(m, m1, r, first, if doFree then done else 0)
    requires Removable(m, r, first + done, doFree)
    ensures Removable(m1, r, first + done, doFree)
  {
    var v := first + done;
    assert Same(m.tr, m1.tr, Va(r, v));
    assert ReturnedAt(m, m1, r, first, if doFree then done else 0, m.tr[Va(r, v)].ppn);
    forall p | 0 <= p < |m.own| && !doFree ensures m1.own[p] != Leaf(r, v) {
      assert ReturnedAt(m, m1, r, first, 0, p);
    }
  }

  /** How many tables are missing on the way from table n of tree r down to page v. */
  ghost function Still(tbl: map<Node, int>, n: Node, r: int, v: int): nat {
    (if n.L2? && L1(r, I2(v)) !in tbl then 1 else 0) + (if !n.L0? && L0(r, I2(v), I1(v)) !in tbl then 1 else 0)
  }

  /** The index that leads from n on to page v. */
  function Turn(n: Node, v: int): int { if n.L2? then I2(v) else I1(v) }

  /** walk has come to table n on its way to page v, and has made just tables that were missing. */
  ghost predicate Down(m: Mem, m': Mem, n: Node, r: int, v: int) {
    && Grew(m, m', r) && |m'.fs| - Still(m'.tbl, n, r, v) == |m.fs| - Still(m.tbl, L2(r), r, v)
    && forall x :: x in m'.tbl && x !in m.tbl ==> Passes(x, r, v)
  }

  lemma DownStarts(m: Mem, r: int, v: int)
    requires |m.own| == |m.pages|
    ensures Down(m, m, L2(r), r, v)
  {
    forall p | 0 <= p < |m.own| ensures PageKept(m, m, r, p) {}
  }

  lemma DownNext(m: Mem, m1: Mem, m2: Mem, n: Node, r: int, v: int)
    requires Down(m, m1, n, r, v) && TblOk(m1) && n in m1.tbl && (n == L2(r) || n == L1(r, I2(v))) && 0 <= Turn(n, v)
    requires var c := Child(n, Turn(n, v));
             if c in m1.tbl then m2 == m1
             else Grew(m1, m2, r) && |m2.fs| == |m1.fs| - 1 && c in m2.tbl && forall x :: x in m2.tbl <==> x in m1.tbl || x == c
    ensures Down(m, m2, Child(n, Turn(n, v)), r, v)
  {
    if m2 != m1 { GrewTrans(m, m1, m2, r); }
    assert L0(r, I2(v), I1(v)) in m1.tbl ==> NodeOk(m1, L0(r, I2(v), I1(v)));
  }

  /** walk cannot go on from n. */
  lemma NoWay(m: Mem, m': Mem, n: Node, r: int, v: int)
    requires Down(m, m', n, r, v) && Wf(m') && 0 <= v && (n == L2(r) || n == L1(r, I2(v))) && 0 <= Turn(n, v) && Child(n, Turn(n, v)) !in m'.tbl
    ensures Va(r, v) !in m'.tr && (m'.fs == [] ==> Lacks(m, r, v, 0, false))
  {
    MissingOne(m, r, v);
    if m'.fs == [] {
      forall all: nat ensures LacksAt(m, r, v, 0, false, all) { if all > 0 { MissingGrows(m, r, v, 1, all); } }
    }
    NoBottomTable(m', r, v, n);
    assert !V(Pte(m', r, v));
  }

  /** walk has made just the tables that were missing. */
  lemma WaySpent(m: Mem, m': Mem, r: int, v: int)
    requires TblOk(m') && LeafTable(r, v) in m'.tbl && Down(m, m', LeafTable(r, v), r, v)
    ensures Spent(m, m', r, v, 1, false)
  {
    MissingOne(m, r, v);
    assert NodeOk(m', LeafTable(r, v));
    forall x ensures SpentAt(m, m', r, v, 1, false, x) { OnWayNext(x, r, v, 0); }
  }

  /** Without a table on the way down there is none at the bottom. */
  lemma NoBottomTable(m: Mem, root: int, v: int, n: Node)
    requires 0 <= v && TblOk(m) && (n == L2(root) || n == L1(root, I2(v))) && Child(n, if n.L2? then I2(v) else I1(v)) !in m.tbl
    ensures LeafTable(root, v) !in m.tbl
  {
    assert LeafTable(root, v) in m.tbl ==> NodeOk(m, LeafTable(root, v));
  }

  /** The index fields of an address below MAXVA. */
  lemma Px(va: nat)
    requires va < MAXVA
    ensures va / 0x4000_0000 % 512 == I2(va / 4096)
    ensures va / 0x20_0000 % 512 == I1(va / 4096)
  {
    assert va / 0x4000_0000 == va / 4096 / 262144;
    assert va / 0x20_0000 == va / 4096 / 512;
  }
}
