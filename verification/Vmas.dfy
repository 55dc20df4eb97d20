/** The memory-mapped regions of one process, over its flat page map (module PageMem
    relates that to the three-level table).  Pages are named by their addresses. */
module Vmas {
  import opened Machine

  const NVMA := 16
  const TRAPFRAME := MAXVA - 2 * PGSIZE
  const NONE := -1

  datatype Prot = Prot(r: bool, w: bool, x: bool)

  datatype Vma = Vma(used: bool, addr: int, length: int, prot: Prot, shared: bool, file: int, off: int)

  const UNUSED := Vma(false, 0, 0, Prot(false, false, false), false, NONE, 0)

  /** A resident page; r, w and x are the bits of its entry. */
  datatype Page = Page(bytes: seq<int>, perm: Prot)

  datatype Space = Space(sz: int, vmas: seq<Vma>, pt: map<int, Page>)

  function RoundUp(x: int): int { (x + PGSIZE - 1) / PGSIZE * PGSIZE }

  function RoundDown(x: int): int { x / PGSIZE * PGSIZE }

  predicate Aligned(x: int) { x % PGSIZE == 0 }

  lemma Rounding(x: int)
    ensures Aligned(RoundUp(x)) && x <= RoundUp(x) < x + PGSIZE
    ensures Aligned(RoundDown(x)) && x - PGSIZE < RoundDown(x) <= x
  {
    Multiple((x + PGSIZE - 1) / PGSIZE);
    Multiple(x / PGSIZE);
  }

  /** Rounding down stays above an aligned bound. */
  lemma RoundDownAbove(x: int, a: int)
    requires Aligned(a) && a <= x
    ensures a <= RoundDown(x)
  {}

  lemma RoundUpBelow(x: int, a: int)
    requires Aligned(a) && x <= a
    ensures RoundUp(x) <= a
  {}

  lemma AlignedSum(a: int, b: int)
    requires Aligned(a) && Aligned(b)
    ensures Aligned(a + b) && Aligned(a - b)
    ensures a < b ==> a + PGSIZE <= b
  {
    var m, n := a / PGSIZE, b / PGSIZE;
    assert a == m * PGSIZE && b == n * PGSIZE;
    Multiple(m + n);
    Multiple(m - n);
    assert a + b == (m + n) * PGSIZE && a - b == (m - n) * PGSIZE;
  }

  lemma Multiple(q: int)
    ensures Aligned(q * PGSIZE)
  {}

  predicate Within(v: Vma, va: int) { v.used && v.addr <= va < v.addr + v.length }

  predicate Apart(v: Vma, w: Vma) { v.used && w.used ==> v.addr + v.length <= w.addr || w.addr + w.length <= v.addr }

  predicate VmaOk(v: Vma) {
    if v.used then
      && Aligned(v.addr) && Aligned(v.length) && Aligned(v.off)
      && 0 <= v.addr && 0 < v.length && v.addr + v.length <= TRAPFRAME && 0 <= v.off && 0 <= v.file
    else v == UNUSED
  }

  ghost predicate VmasOk(vmas: seq<Vma>) {
    && |vmas| == NVMA
    && (forall i :: 0 <= i < NVMA ==> VmaOk(vmas[i]))
    && (forall i, j :: 0 <= i < j < NVMA ==> Apart(vmas[i], vmas[j]))
  }

  ghost predicate Mapped(vmas: seq<Vma>, va: int) { exists i :: 0 <= i < |vmas| && Within(vmas[i], va) }

  /** The bits of the entry for a region's page. */
  function Perm(prot: Prot): Prot { Prot(prot.r || prot.w, prot.w, prot.x) }

  /** A page with these bits may be resident in region v at va. */
  predicate Lawful(v: Vma, va: int, perm: Prot) { Within(v, va) && perm == Perm(v.prot) }

  ghost predicate Backed(vmas: seq<Vma>, va: int, perm: Prot) { exists i :: 0 <= i < |vmas| && Lawful(vmas[i], va, perm) }

  /** A resident page belongs to the heap or to a region, whose protection it has. */
  ghost predicate LeafOk(s: Space, va: int)
    requires va in s.pt
  {
    Aligned(va) && |s.pt[va].bytes| == PGSIZE && 0 <= va && (va < RoundUp(s.sz) || Backed(s.vmas, va, s.pt[va].perm))
  }

  /** The whole heap is resident. */
  ghost predicate HeapOk(s: Space) {
    0 <= s.sz && forall va :: 0 <= va < RoundUp(s.sz) && Aligned(va) ==> va in s.pt
  }

  /** The heap ends below every region. */
  ghost predicate HeapBelow(s: Space) {
    forall i :: 0 <= i < |s.vmas| && s.vmas[i].used ==> RoundUp(s.sz) <= s.vmas[i].addr
  }

  ghost predicate SpaceOk(s: Space) {
    VmasOk(s.vmas) && 0 <= s.sz < TWO32 && forall va :: va in s.pt ==> LeafOk(s, va)
  }

  /** The heap is whole and clear of the regions.  Every call but growproc keeps this. */
  ghost predicate Sound(s: Space) { SpaceOk(s) && HeapOk(s) && HeapBelow(s) }

  /** Where address va is in the mapped file. */
  function Offset(v: Vma, va: int): int { v.off + (va - v.addr) }

  // ---------- mmap ----------

  /** lo is the lowest address in use, at most TRAPFRAME. */
  ghost predicate IsLowest(vmas: seq<Vma>, lo: int) {
    && lo <= TRAPFRAME && Aligned(lo)
    && (forall i :: 0 <= i < |vmas| && vmas[i].used ==> lo <= vmas[i].addr)
    && (lo == TRAPFRAME || exists i :: 0 <= i < |vmas| && vmas[i].used && vmas[i].addr == lo)
  }

  lemma Added(s: Space, i: int, v: Vma)
    requires SpaceOk(s) && 0 <= i < NVMA && !s.vmas[i].used && VmaOk(v) && v.used
    requires RoundUp(s.sz) <= v.addr && forall j :: 0 <= j < NVMA && s.vmas[j].used ==> v.addr + v.length <= s.vmas[j].addr
    ensures SpaceOk(s.(vmas := s.vmas[i := v])) && (Sound(s) ==> Sound(s.(vmas := s.vmas[i := v])))
  {
    var s' := s.(vmas := s.vmas[i := v]);
    forall va | va in s'.pt ensures LeafOk(s', va) {
      assert LeafOk(s, va);
      if va >= RoundUp(s.sz) {
        var j :| 0 <= j < NVMA && Lawful(s.vmas[j], va, s.pt[va].perm);
        assert Lawful(s'.vmas[j], va, s'.pt[va].perm);
      }
    }
  }

  // ---------- faults ----------

  lemma Filled(s: Space, i: int, va: int, pg: Page)
    requires SpaceOk(s) && 0 <= i < NVMA && Lawful(s.vmas[i], va, pg.perm) && Aligned(va) && |pg.bytes| == PGSIZE
    ensures SpaceOk(s.(pt := s.pt[va := pg])) && (Sound(s) ==> Sound(s.(pt := s.pt[va := pg])))
  {
    var s' := s.(pt := s.pt[va := pg]);
    assert VmaOk(s.vmas[i]);
    forall x | x in s'.pt ensures LeafOk(s', x) {
      if x != va { assert LeafOk(s, x); }
    }
  }

  /** Byte x is stored at va, whose page is resident. */
  function Stored(s: Space, va: int, x: int): Space
    requires RoundDown(va) in s.pt && 0 <= va - RoundDown(va) < |s.pt[RoundDown(va)].bytes|
  {
    var page := RoundDown(va);
    Space(s.sz, s.vmas, s.pt[page := Page(s.pt[page].bytes[va - page := x], s.pt[page].perm)])
  }

  lemma StoredOk(s: Space, va: int, x: int)
    requires SpaceOk(s) && RoundDown(va) in s.pt
    ensures 0 <= va - RoundDown(va) < PGSIZE == |s.pt[RoundDown(va)].bytes|
    ensures SpaceOk(Stored(s, va, x)) && (Sound(s) ==> Sound(Stored(s, va, x)))
  {
    Rounding(va);
    assert LeafOk(s, RoundDown(va));
    var t := Stored(s, va, x);
    forall y | y in t.pt ensures LeafOk(t, y) { assert LeafOk(s, y); }
  }

  /** The byte at va. */
  function Byte(s: Space, va: int): int
    requires RoundDown(va) in s.pt && 0 <= va - RoundDown(va) < |s.pt[RoundDown(va)].bytes|
  { s.pt[RoundDown(va)].bytes[va - RoundDown(va)] }

  ghost predicate Resident(s: Space, va: int) { RoundDown(va) in s.pt && 0 <= va - RoundDown(va) < |s.pt[RoundDown(va)].bytes| }

  /** From s to t the byte at va has become x, and nothing else has changed. */
  ghost predicate OneByte(s: Space, t: Space, va: int, x: int) {
    && t.sz == s.sz && t.vmas == s.vmas && t.pt.Keys == s.pt.Keys && Resident(t, va) && Byte(t, va) == x
    && (forall y :: y in s.pt ==> t.pt[y].perm == s.pt[y].perm && |t.pt[y].bytes| == |s.pt[y].bytes|)
    && forall y :: Resident(s, y) && y != va ==> Resident(t, y) && Byte(t, y) == Byte(s, y)
  }

  lemma StoredOne(s: Space, va: int, x: int)
    requires SpaceOk(s) && RoundDown(va) in s.pt && 0 <= va - RoundDown(va) < |s.pt[RoundDown(va)].bytes|
    ensures OneByte(s, Stored(s, va, x), va, x)
  {}

  /** A region that allows stores covers va. */
  ghost predicate Writable(vmas: seq<Vma>, va: int) { exists i :: 0 <= i < |vmas| && Within(vmas[i], va) && vmas[i].prot.w }

  /** The entry's bits let a program store only into the heap and into regions that allow it. */
  lemma Protected(s: Space, va: int)
    requires SpaceOk(s) && RoundDown(va) in s.pt && s.pt[RoundDown(va)].perm.w
    ensures va < RoundUp(s.sz) || Writable(s.vmas, va)
  {
    var page := RoundDown(va);
    Rounding(va);
    assert LeafOk(s, page);
    if page >= RoundUp(s.sz) {
      var i :| 0 <= i < NVMA && Lawful(s.vmas[i], page, s.pt[page].perm);
      assert VmaOk(s.vmas[i]);
      AlignedSum(s.vmas[i].addr, s.vmas[i].length);
      AlignedSum(page, s.vmas[i].addr + s.vmas[i].length);
      assert Within(s.vmas[i], va);
    } else {
      Rounding(s.sz);
      AlignedSum(page, RoundUp(s.sz));
    }
  }

  // ---------- munmap ----------

  /** The pages from addr up to end are gone. */
  function Without(pt: map<int, Page>, addr: int, end: int): map<int, Page> {
    map x | x in pt && !(addr <= x < end) :: pt[x]
  }

  /** One page further: all resident pages are aligned. */
  lemma WithoutNext(pt: map<int, Page>, addr: int, va: int)
    requires (forall x :: x in pt ==> Aligned(x)) && Aligned(va) && addr <= va
    ensures Without(pt, addr, va + PGSIZE) == Without(pt, addr, va) - {va}
  {
    forall x | x in pt && va < x < va + PGSIZE ensures false { AlignedSum(va, x); }
  }

  /** What is left of region v when [addr, end) goes. */
  function Rest(v: Vma, addr: int, end: int): Vma {
    if addr == v.addr && end == v.addr + v.length then UNUSED
    else if addr == v.addr then v.(addr := end, off := v.off + (end - addr), length := v.length - (end - addr))
    else v.(length := v.length - (end - addr))
  }

  predicate CanUnmap(v: Vma, addr: int, end: int) {
    && v.used && Aligned(addr) && Aligned(end) && v.addr <= addr < end <= v.addr + v.length
    && (addr == v.addr || end == v.addr + v.length)
  }

  /** Exactly the addresses outside [addr, end) stay mapped, at the same place of the file. */
  lemma RestKeeps(v: Vma, addr: int, end: int, va: int)
    requires VmaOk(v) && CanUnmap(v, addr, end)
    ensures VmaOk(Rest(v, addr, end))
    ensures Within(Rest(v, addr, end), va) <==> Within(v, va) && !(addr <= va < end)
    ensures Within(Rest(v, addr, end), va) ==> Offset(Rest(v, addr, end), va) == Offset(v, va)
    ensures Rest(v, addr, end).used ==>
              var w := Rest(v, addr, end);
              w.prot == v.prot && w.shared == v.shared && w.file == v.file && w.length == v.length - (end - addr)
    ensures !Rest(v, addr, end).used <==> addr == v.addr && end == v.addr + v.length
  {
    AlignedSum(end, addr);
    AlignedSum(v.off, end - addr);
    AlignedSum(v.length, end - addr);
  }

  lemma Unmapped(s: Space, i: int, addr: int, end: int)
    requires SpaceOk(s) && 0 <= i < NVMA && CanUnmap(s.vmas[i], addr, end)
    ensures var s' := s.(vmas := s.vmas[i := Rest(s.vmas[i], addr, end)], pt := Without(s.pt, addr, end));
            SpaceOk(s') && (Sound(s) ==> Sound(s'))
  {
    var v, w := s.vmas[i], Rest(s.vmas[i], addr, end);
    var s' := s.(vmas := s.vmas[i := w], pt := Without(s.pt, addr, end));
    RestKeeps(v, addr, end, addr);
    forall j | 0 <= j < NVMA && j != i ensures Apart(w, s.vmas[j]) && Apart(s.vmas[j], w) {
      assert Apart(v, s.vmas[j]) || Apart(s.vmas[j], v);
    }
    forall va | va in s'.pt ensures LeafOk(s', va) {
      assert LeafOk(s, va);
      RestKeeps(v, addr, end, va);
      if va >= RoundUp(s.sz) {
        var j :| 0 <= j < NVMA && Lawful(s.vmas[j], va, s.pt[va].perm);
        assert Lawful(s'.vmas[j], va, s'.pt[va].perm);
      }
    }
  }

  /** What vma_unmap_all leaves: no region, and only the pages outside them. */
  ghost function Bare(s: Space): Space { Space(s.sz, seq(NVMA, _ => UNUSED), Outside(s.vmas, s.pt)) }

  ghost function Outside(vmas: seq<Vma>, pt: map<int, Page>): map<int, Page> { map x | x in pt && !Mapped(vmas, x) :: pt[x] }

  /** The resident pages are exactly the heap: the teardown of the page table meets every page it
      expects and no other. */
  ghost predicate OnlyHeap(s: Space) { forall va :: va in s.pt <==> 0 <= va < RoundUp(s.sz) && Aligned(va) }

  lemma BackedMapped(s: Space, va: int)
    requires SpaceOk(s) && va in s.pt
    ensures LeafOk(s, va) && (va < RoundUp(s.sz) || Mapped(s.vmas, va))
  {
    if va >= RoundUp(s.sz) {
      var i :| 0 <= i < NVMA && Lawful(s.vmas[i], va, s.pt[va].perm);
      assert Within(s.vmas[i], va);
    }
  }

  lemma SoundTeardown(s: Space)
    requires Sound(s)
    ensures OnlyHeap(Bare(s)) && Sound(Bare(s))
  {
    var t := Bare(s);
    forall va ensures va in t.pt <==> 0 <= va < RoundUp(s.sz) && Aligned(va) {
      if va in s.pt { BackedMapped(s, va); }
      if Mapped(s.vmas, va) { var i :| 0 <= i < NVMA && Within(s.vmas[i], va); }
    }
    forall va | va in t.pt ensures LeafOk(t, va) { assert LeafOk(s, va); }
  }

  // ---------- fork ----------

  /** The child's pages are copies of the heap; regions are copied without their pages. */
  function Forked(s: Space): Space {
    s.(pt := map x | x in s.pt && x < RoundUp(s.sz) :: s.pt[x])
  }

  /** What fork promises: the child has the parent's size, regions and heap, byte for byte and bit for bit, and no
      other page. */
  ghost predicate IsCopy(s: Space, t: Space) {
    && t.sz == s.sz && t.vmas == s.vmas
    && (forall va :: 0 <= va < RoundUp(s.sz) && Aligned(va) ==> va in s.pt && va in t.pt && t.pt[va].bytes == s.pt[va].bytes && t.pt[va].perm == s.pt[va].perm)
    && forall va :: va in t.pt ==> 0 <= va < RoundUp(s.sz) && Aligned(va)
  }

  lemma HeapByte(s: Space, t: Space, y: int)
    requires SpaceOk(s) && IsCopy(s, t) && 0 <= y < RoundUp(s.sz)
    ensures Resident(s, y) && Resident(t, y) && Byte(t, y) == Byte(s, y)
  {
    Rounding(y);
    RoundDownAbove(y, 0);
    assert LeafOk(s, RoundDown(y));
  }

  lemma ForkedSame(s: Space)
    requires SpaceOk(s) && HeapOk(s)
    ensures IsCopy(s, Forked(s))
  {
    forall va | va in Forked(s).pt ensures 0 <= va && Aligned(va) { assert LeafOk(s, va); }
  }

  lemma ForkedOk(s: Space)
    requires SpaceOk(s)
    ensures SpaceOk(Forked(s)) && (Sound(s) ==> Sound(Forked(s)))
  {
    forall va | va in Forked(s).pt ensures LeafOk(Forked(s), va) { assert LeafOk(s, va); }
  }

  /** The first k regions of s only, and the heap: what fork has copied so far. */
  function PartForked(s: Space, k: int): Space
    requires |s.vmas| == NVMA
  { Forked(s).(vmas := seq(NVMA, i requires 0 <= i < NVMA => if i < k then s.vmas[i] else UNUSED)) }

  lemma PartForkedOk(s: Space, k: int)
    requires SpaceOk(s)
    ensures SpaceOk(PartForked(s, k))
  {
    var t := PartForked(s, k);
    forall va | va in t.pt ensures LeafOk(t, va) { assert LeafOk(s, va); }
  }

  // ---------- growproc ----------

  /** A page of the heap that growing from sz to newsz has to map. */
  predicate Fresh(sz: int, newsz: int, va: int) { RoundUp(sz) <= va < RoundUp(newsz) && Aligned(va) }

  function HeapPage(): (g: Page)
    ensures |g.bytes| == PGSIZE
  { Page(seq(PGSIZE, _ => 0), Prot(true, true, true)) }

  /** The heap has grown to newsz, by zeroed pages. */
  ghost function GrownTo(s: Space, newsz: int): Space { Space(newsz, s.vmas, WithHeap(s.pt, s.sz, newsz)) }

  ghost function WithHeap(pt: map<int, Page>, sz: int, newsz: int): map<int, Page> {
    map x | x in pt.Keys + (set y | RoundUp(sz) <= y < RoundUp(newsz) && Aligned(y)) :: if x in pt then pt[x] else HeapPage()
  }

  /** Region v has a page that growing from sz to newsz maps. */
  predicate Meets(v: Vma, sz: int, newsz: int) { v.used && v.addr < RoundUp(newsz) && RoundUp(sz) < v.addr + v.length }

  ghost predicate Harmless(s: Space, newsz: int) { forall i :: 0 <= i < |s.vmas| ==> !Meets(s.vmas[i], s.sz, newsz) }

  lemma GrownOk(s: Space, newsz: int)
    requires SpaceOk(s) && s.sz <= newsz < TWO32
    ensures SpaceOk(GrownTo(s, newsz)) && (HeapOk(s) ==> HeapOk(GrownTo(s, newsz)))
  {
    var t := GrownTo(s, newsz);
    Rounding(s.sz);
    RoundUpBelow(s.sz, RoundUp(newsz));
    Rounding(newsz);
    forall va | va in t.pt ensures LeafOk(t, va) {
      if va in s.pt { assert LeafOk(s, va); }
    }
  }

  /** growproc does not look at the regions.  If it succeeds, the teardown after vma_unmap_all finds the
      page table that it expects exactly if no region meets the new part of the heap. */
  lemma GrowTeardown(s: Space, newsz: int)
    requires Sound(s) && s.sz <= newsz < TWO32
    ensures OnlyHeap(Bare(GrownTo(s, newsz))) <==> Harmless(s, newsz)
    ensures Sound(GrownTo(s, newsz)) <==> Harmless(s, newsz)
  {
    var t := GrownTo(s, newsz);
    GrownOk(s, newsz);
    if Harmless(s, newsz) {
      forall i | 0 <= i < NVMA && t.vmas[i].used ensures RoundUp(newsz) <= t.vmas[i].addr {
        assert VmaOk(s.vmas[i]) && !Meets(s.vmas[i], s.sz, newsz);
      }
      SoundTeardown(t);
    } else {
      var i :| 0 <= i < NVMA && Meets(s.vmas[i], s.sz, newsz);
      assert VmaOk(s.vmas[i]) && Within(t.vmas[i], s.vmas[i].addr);
      assert Mapped(t.vmas, s.vmas[i].addr);
    }
  }

  /** The heap has shrunk to newsz. */
  ghost function ShrunkTo(s: Space, newsz: int): Space { Space(newsz, s.vmas, Without(s.pt, RoundUp(newsz), RoundUp(s.sz))) }

  lemma ShrunkOk(s: Space, newsz: int)
    requires SpaceOk(s) && 0 <= newsz <= s.sz
    ensures SpaceOk(ShrunkTo(s, newsz)) && (Sound(s) ==> Sound(ShrunkTo(s, newsz)))
  {
    var t := ShrunkTo(s, newsz);
    Rounding(s.sz);
    RoundUpBelow(newsz, RoundUp(s.sz));
    forall va | va in t.pt ensures LeafOk(t, va) { assert LeafOk(s, va); }
  }

  predicate ZeroPage(g: Page) { |g.bytes| == PGSIZE && (forall k :: 0 <= k < PGSIZE ==> g.bytes[k] == 0) && g.perm.r && g.perm.w && g.perm.x }

  /** From s to t the heap has got the size newsz: the pages beyond it are gone, new ones are zero and can be read,
      written and executed, and every other page is what it was. */
  ghost predicate Resized(s: Space, t: Space, newsz: int) {
    && t.sz == newsz && t.vmas == s.vmas
    && forall va :: ResizedAt(s, t, newsz, va)
  }

  ghost predicate ResizedAt(s: Space, t: Space, newsz: int, va: int) {
    && (va in t.pt <==> (va in s.pt && !(RoundUp(newsz) <= va < RoundUp(s.sz))) || Fresh(s.sz, newsz, va))
    && (va in t.pt && va in s.pt ==> t.pt[va].bytes == s.pt[va].bytes && t.pt[va].perm == s.pt[va].perm)
    && (va in t.pt && va !in s.pt ==> ZeroPage(t.pt[va]))
  }

  lemma ResizedOk(s: Space, newsz: int)
    requires 0 <= newsz
    ensures newsz >= s.sz ==> Resized(s, GrownTo(s, newsz), newsz)
    ensures newsz <= s.sz ==> Resized(s, ShrunkTo(s, newsz), newsz)
  {
    Rounding(s.sz);
    Rounding(newsz);
    if newsz >= s.sz { RoundUpBelow(s.sz, RoundUp(newsz)); }
    if newsz <= s.sz { RoundUpBelow(newsz, RoundUp(s.sz)); }
    forall va ensures (newsz >= s.sz ==> ResizedAt(s, GrownTo(s, newsz), newsz, va)) && (newsz <= s.sz ==> ResizedAt(s, ShrunkTo(s, newsz), newsz, va)) {}
  }

  /** A page of [lo, hi) is resident: uvmalloc panics when it comes to it. */
  ghost predicate Blocked(pt: map<int, Page>, lo: int, hi: int) { exists x :: lo <= x < hi && x in pt }

  /** A page of [lo, hi) is not resident: uvmunmap panics when it comes to it. */
  ghost predicate Holed(pt: map<int, Page>, lo: int, hi: int) { exists x :: lo <= x < hi && Aligned(x) && x !in pt }

  lemma WithHeapNone(pt: map<int, Page>, sz: int)
    ensures WithHeap(pt, sz, RoundUp(sz)) == pt
  {
    Rounding(sz);
    Exact(RoundUp(sz));
  }

  /** One more page of the new heap. */
  lemma WithHeapNext(pt: map<int, Page>, sz: int, a: int)
    requires Aligned(a) && RoundUp(sz) <= a && a !in pt
    ensures WithHeap(pt, sz, a + PGSIZE) == WithHeap(pt, sz, a)[a := HeapPage()]
  {
    AlignedSum(a, PGSIZE);
    Exact(a);
    Exact(a + PGSIZE);
    forall x ensures Fresh(sz, a + PGSIZE, x) <==> Fresh(sz, a, x) || x == a {
      if Aligned(x) && a < x < a + PGSIZE { AlignedSum(a, x); }
    }
    forall x ensures (x in WithHeap(pt, sz, a + PGSIZE) <==> x in pt || Fresh(sz, a + PGSIZE, x))
      ensures x in WithHeap(pt, sz, a) <==> x in pt || Fresh(sz, a, x) {}
  }

  /** uvmdealloc undoes what uvmalloc has done so far. */
  lemma WithHeapUndone(pt: map<int, Page>, sz: int, a: int)
    requires Aligned(a) && RoundUp(sz) <= a && forall x :: RoundUp(sz) <= x < a ==> x !in pt
    ensures Without(WithHeap(pt, sz, a), RoundUp(sz), a) == pt
  {
    Exact(a);
  }

  lemma FloorExact(x: int)
    requires Aligned(x)
    ensures RoundDown(x) == x
  {}

  lemma Exact(x: int)
    requires Aligned(x)
    ensures RoundUp(x) == x
  {
    Rounding(x);
    AlignedSum(x, RoundUp(x));
  }
}
