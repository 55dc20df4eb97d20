/** mmap, munmap, page faults, fork, exit and exec as far as they touch mapped regions and
    file references: kernel/sysfile.c, kernel/proc.c and kernel/file.c. */
module Mmap {
  import opened Machine
  import opened Vmas
  import opened MappedFiles
  import opened FileRefs

  const MAP_SHARED := 1
  const MAP_PRIVATE := 2

  function ProtOf(bits: int): Prot { Prot(bits % 2 == 1, bits / 2 % 2 == 1, bits / 4 % 2 == 1) }

  /** The protection argument of mmap: PROT_READ is 1, PROT_WRITE 2, PROT_EXEC 4. */
  lemma ProtBits(bits: int)
    requires 0 <= bits < 8
    ensures var p := ProtOf(bits); bits == (if p.r then 1 else 0) + (if p.w then 2 else 0) + (if p.x then 4 else 0)
  {}

  /** The access that faulted with this cause goes through: 12, 13 and 15 are instruction, load and store page
      faults. */
  predicate GoesThrough(perm: Prot, cause: int) {
    match cause
    case 12 => perm.x
    case 13 => perm.r
    case 15 => perm.w
    case _ => true
  }

  /** The arguments that mmap accepts. */
  ghost predicate GoodRequest(s: Sys, p: int, requested: int, length: int, prot: int, flags: int, fd: int, offset: int)
  {
    && 0 <= p < |s.procs| && 0 <= fd < |s.procs[p].ofile| && 0 <= s.procs[p].ofile[fd] < |s.files|
    && var f := s.files[s.procs[p].ofile[fd]];
       && requested == 0 && offset == 0 && 0 < length <= MAXVA && (flags == MAP_SHARED || flags == MAP_PRIVATE) && 0 < prot <= 7
       && f.isInode && f.readable && (flags == MAP_SHARED && ProtOf(prot).w ==> f.writable)
  }

  /** Page k was put back, unless there was nothing to put back. */
  ghost predicate Written(c: seq<int>, pt: map<int, Page>, v: Vma, addr: int, k: nat)
    requires PagesOk(pt)
  { PageAt(addr, k) in pt && Dirty(v) ==> CanWrite(WriteBack(c, pt, v, addr, k), Uint(Offset(v, PageAt(addr, k)))) }

  lemma LeavesOk(a: Space)
    requires SpaceOk(a)
    ensures PagesOk(a.pt) && forall x :: x in a.pt ==> Aligned(x)
  {
    forall x | x in a.pt ensures |a.pt[x].bytes| == PGSIZE && Aligned(x) { assert LeafOk(a, x); }
  }

  /** vma_unmap has dealt with the first k pages from addr on. */
  ghost predicate Progress(s: Sys, s': Sys, p: int, i: int, addr: int, k: nat, error: int) {
    && 0 <= p < |s.procs| && 0 <= i < |s.procs[p].space.vmas|
    && var a := s.procs[p].space;
       var v := a.vmas[i];
       && PagesOk(a.pt) && IsFile(s, v.file) && 0 <= s.files[v.file].ino < |s.inodes|
       && var ino := s.files[v.file].ino;
          && s' == s.(procs := PutPt(s.procs, p, Without(a.pt, addr, PageAt(addr, k))),
                      inodes := s.inodes[ino := WriteBack(s.inodes[ino], a.pt, v, addr, k)])
          && (error == 0 || error == -1)
          && (error == 0 <==> forall j :: 0 <= j < k ==> Written(s.inodes[ino], a.pt, v, addr, j))
  }

  function Pages(addr: int, end: int): nat
    requires addr <= end
  { (end - addr) / PGSIZE }

  lemma PagesExact(addr: int, end: int)
    requires Aligned(addr) && Aligned(end) && addr <= end
    ensures end == PageAt(addr, Pages(addr, end))
  {
    AlignedSum(end, addr);
  }

  /** From s to s' the part [addr, end) of region i of process p was unmapped; r is what vma_unmap returned. */
  ghost predicate Gone(s: Sys, s': Sys, p: int, i: int, addr: int, end: int, r: int) {
    && 0 <= p < |s.procs| && 0 <= i < |s.procs[p].space.vmas| && |s.held| == |s.files|
    && var a := s.procs[p].space;
       var v := a.vmas[i];
       && CanUnmap(v, addr, end) && PagesOk(a.pt) && IsFile(s, v.file) && 0 <= s.files[v.file].ino < |s.inodes|
       && var ino := s.files[v.file].ino;
          var n := Pages(addr, end);
          && s'.procs == PutVma(PutPt(s.procs, p, Without(a.pt, addr, end)), p, i, Rest(v, addr, end))
          && s'.inodes == s.inodes[ino := WriteBack(s.inodes[ino], a.pt, v, addr, n)]
          && (if end - addr == v.length
              then s'.files == s.files[v.file := s.files[v.file].(ref := s.files[v.file].ref - 1)] && s'.held == s.held[v.file := s.held[v.file] - {Vm(p, i)}]
              else s'.files == s.files && s'.held == s.held)
          && (r == 0 <==> forall k :: 0 <= k < n ==> Written(s.inodes[ino], a.pt, v, addr, k))
  }

  lemma GoneInv(s: Sys, s': Sys, p: int, i: int, addr: int, end: int, r: int)
    requires Inv(s) && Gone(s, s', p, i, addr, end, r)
    ensures Inv(s') && (Sound(s.procs[p].space) ==> Sound(s'.procs[p].space))
    ensures (forall n :: 0 <= n < |s.inodes| ==> |s.inodes[n]| <= MAXBYTES) ==> forall n :: 0 <= n < |s'.inodes| ==> |s'.inodes[n]| <= MAXBYTES
  {
    var a := s.procs[p].space;
    var v := a.vmas[i];
    var a' := a.(vmas := a.vmas[i := Rest(v, addr, end)], pt := Without(a.pt, addr, end));
    Unmapped(a, i, addr, end);
    assert s'.procs == SetSpace(s, p, a').procs;
    if end - addr == v.length {
      LoseVma(s, p, i, a', s'.inodes);
      assert s' == Down(SetSpace(s, p, a'), v.file, Vm(p, i)).(inodes := s'.inodes);
    } else {
      KeepVmas(s, p, a', s'.inodes);
      assert s' == SetSpace(s, p, a').(inodes := s'.inodes);
    }
    var c := s.inodes[s.files[v.file].ino];
    if |c| <= MAXBYTES { StaysSmall(c, a.pt, v, addr, Pages(addr, end)); }
  }

  /** munmap of a shared writable range reports success exactly if every resident page of it is written to the file,
      which the size of the file and the resident pages decide. */
  lemma ReportExact(s: Sys, s': Sys, p: int, i: int, addr: int, end: int, r: int)
    requires Gone(s, s', p, i, addr, end, r) && s.procs[p].space.vmas[i].shared && s.procs[p].space.vmas[i].prot.w
    ensures var a := s.procs[p].space;
            var v := a.vmas[i];
            r == 0 <==> forall k :: 0 <= k < Pages(addr, end) && PageAt(addr, k) in a.pt ==>
                          Reaches(|s.inodes[s.files[v.file].ino]|, a.pt, v, addr, k)
  {
    var a := s.procs[p].space;
    var v := a.vmas[i];
    var c := s.inodes[s.files[v.file].ino];
    forall k | 0 <= k < Pages(addr, end) && PageAt(addr, k) in a.pt
      ensures Written(c, a.pt, v, addr, k) <==> Reaches(|c|, a.pt, v, addr, k)
    {
      SizeExact(c, a.pt, v, addr, k);
    }
  }

  /** [addr, addr + length), rounded up, is a region or a prefix or suffix of one. */
  ghost predicate GoodRange(vmas: seq<Vma>, addr: int, length: int) {
    && Aligned(addr) && 0 < length <= MAXVA
    && exists i :: 0 <= i < |vmas| && CanUnmap(vmas[i], addr, addr + RoundUp(length))
  }

  datatype Grown = Done | Fails | Panics

  function PutSize(procs: seq<Proc>, p: int, sz: int): seq<Proc>
    requires 0 <= p < |procs|
  { procs[p := procs[p].(space := procs[p].space.(sz := sz))] }

  lemma OnePage(pt: map<int, Page>, a: int)
    requires Aligned(a) && a !in pt && forall x :: x in pt ==> Aligned(x)
    ensures !Blocked(pt, a, a + PGSIZE)
  {
    forall x | a < x < a + PGSIZE && x in pt ensures false { AlignedSum(a, x); }
  }

  lemma SameHeap(pt: map<int, Page>, sz: int, newsz: int, a: int)
    requires RoundUp(newsz) == a && Aligned(a)
    ensures WithHeap(pt, sz, a) == WithHeap(pt, sz, newsz)
  {
    Exact(a);
  }

  /** From s to s' the heap of process p was to grow to newsz, with so many pages left. */
  ghost predicate Enlarged(s: Sys, s': Sys, p: int, newsz: int, pages: nat, out: Grown) {
    && 0 <= p < |s.procs| && |s'.procs| == |s.procs|
    && var a := s.procs[p].space;
       var lo, hi, top := RoundUp(a.sz), RoundUp(newsz), RoundUp(a.sz) + pages * PGSIZE;
       && (out == Done <==> hi <= top && !Blocked(a.pt, lo, hi))
       && (out == Fails <==> top < hi && !Blocked(a.pt, lo, top))
       && (out == Done ==> s' == SetSpace(s, p, GrownTo(a, newsz)))
       && (out == Fails ==> s' == s)
  }

  lemma NextPageUp(x: int)
    requires Aligned(x)
    ensures RoundUp(x + 1) == x + PGSIZE
  {
    Rounding(x + 1);
    AlignedSum(x, PGSIZE);
    AlignedSum(x, RoundUp(x + 1));
    if RoundUp(x + 1) < x + PGSIZE { AlignedSum(RoundUp(x + 1), x + PGSIZE); }
  }

  /** Without regions nothing above the heap is resident. */
  lemma NotBlocked(a: Space, newsz: int)
    requires SpaceOk(a) && forall i :: 0 <= i < NVMA ==> !a.vmas[i].used
    ensures !Blocked(a.pt, RoundUp(a.sz), RoundUp(newsz))
  {
    NoneAbove(a, RoundUp(a.sz));
  }

  /** Without regions nothing above the heap is resident. */
  lemma NoneAbove(a: Space, r: int)
    requires SpaceOk(a) && RoundUp(a.sz) <= r && forall i :: 0 <= i < NVMA ==> !a.vmas[i].used
    ensures forall x :: x in a.pt ==> x < r
  {
    forall x | x in a.pt ensures x < r { assert LeafOk(a, x); }
  }

  lemma OnlyIn(vmas: seq<Vma>, i: int, va: int)
    requires VmasOk(vmas) && 0 <= i < NVMA && Within(vmas[i], va)
    ensures forall j :: 0 <= j < NVMA && Within(vmas[j], va) ==> j == i
  {
    forall j | 0 <= j < NVMA && Within(vmas[j], va) ensures j == i {
      assert Apart(vmas[j], vmas[i]) || Apart(vmas[i], vmas[j]) || j == i;
    }
  }

  /** Process p has file f mapped at r, shared and writable, and of the mapping only the page 4 GiB on is resident,
      with x as its first byte. */
  ghost predicate FarPage(s: Sys, p: int, r: int, f: int, x: int) {
    && 0 <= p < |s.procs|
    && var a := s.procs[p].space;
       && (exists i :: 0 <= i < |a.vmas| && a.vmas[i] == Vma(true, r, TWO32 + PGSIZE, ProtOf(3), true, f, 0))
       && (forall y :: y in a.pt && y >= r ==> y == r + TWO32)
       && r + TWO32 in a.pt && |a.pt[r + TWO32].bytes| > 0 && a.pt[r + TWO32].bytes[0] == x
  }

  lemma FarWritten(s: Sys, s': Sys, p: int, i: int, addr: int, r: int, f: int, x: int)
    requires Inv(s) && FarPage(s, p, addr, f, x) && 0 <= i < NVMA && Gone(s, s', p, i, addr, addr + TWO32 + PGSIZE, r)
    ensures IsFile(s, f) && 0 <= s.files[f].ino < |s'.inodes| && r == 0
    ensures var c := s'.inodes[s.files[f].ino]; |c| > 0 && c[0] == x
  {
    var a, n := s.procs[p].space, TWO32 / PGSIZE;
    assert SpaceOk(a);
    var k :| 0 <= k < |a.vmas| && a.vmas[k] == Vma(true, addr, TWO32 + PGSIZE, ProtOf(3), true, f, 0);
    OnlyIn(a.vmas, k, addr);
    var v := a.vmas[i];
    assert v == a.vmas[k] && Pages(addr, addr + TWO32 + PGSIZE) == n + 1 && PageAt(addr, n) == addr + TWO32;
    var c := s.inodes[s.files[f].ino];
    PutBackWraps(c, a.pt, v, n);
    forall j | 0 <= j < n + 1 ensures Written(c, a.pt, v, addr, j) {
      if j == n {
        NoneResident(c, a.pt, v, addr, n);
        CutTo0(v, n);
      }
    }
  }

  /** A sound heap has no hole. */
  lemma NoHole(a: Space, newsz: int)
    requires 0 <= newsz
    ensures Sound(a) ==> !Holed(a.pt, RoundUp(newsz), RoundUp(a.sz))
  {
    Rounding(newsz);
  }

  class Kernel {
    var procs: seq<Proc>
    var files: seq<File>
    var inodes: seq<seq<int>>
    ghost var held: seq<set<Holder>>

    ghost function S(): Sys
      reads this
    { Sys(procs, files, inodes, held) }

    ghost predicate Valid()
      reads this
    { Inv(S()) && forall n :: 0 <= n < |inodes| ==> |inodes[n]| <= MAXBYTES }

    /** The memory of process p is sound if it was. */
    twostate predicate KeepsSound(p: int)
      reads this
    { |procs| == |old(procs)| && (0 <= p < |procs| && Sound(old(procs)[p].space) ==> Sound(procs[p].space)) }

    /** No file open, no process with any memory. */
    constructor (nproc: nat, nfile: nat, inodes: seq<seq<int>>)
      requires forall n :: 0 <= n < |inodes| ==> |inodes[n]| <= MAXBYTES
      ensures Valid() && |procs| == nproc && |files| == nfile && this.inodes == inodes
      ensures forall f :: 0 <= f < nfile ==> files[f].ref == 0
    {
      procs := seq(nproc, _ => Proc(seq(NOFILE, _ => NONE), Space(0, seq(NVMA, _ => UNUSED), map[])));
      files := seq(nfile, _ => File(0, false, 0, false, false));
      this.inodes := inodes;
      held := seq(nfile, _ => {});
    }

    // ---------- kernel/file.c ----------

    /** The requires says that the panic is not reached. */
    method Filedup(f: int)
      requires 0 <= f < |files| && files[f].ref >= 1
      modifies `files
      ensures files == old(files)[f := old(files)[f].(ref := old(files)[f].ref + 1)]
    {
      files := files[f := files[f].(ref := files[f].ref + 1)];
    }

    method Fileclose(f: int)
      requires 0 <= f < |files| && files[f].ref >= 1
      modifies `files
      ensures files == old(files)[f := old(files)[f].(ref := old(files)[f].ref - 1)]
    {
      files := files[f := files[f].(ref := files[f].ref - 1)];
    }

    /** The first entry that is not in use. */
    method Filealloc() returns (f: int)
      requires forall g :: 0 <= g < |files| ==> files[g].ref >= 0
      modifies `files
      ensures f == NONE <==> forall g :: 0 <= g < |old(files)| ==> old(files)[g].ref > 0
      ensures f == NONE ==> files == old(files)
      ensures f != NONE ==> 0 <= f < |old(files)| && old(files)[f].ref == 0 && files == old(files)[f := old(files)[f].(ref := 1)]
      ensures f != NONE ==> forall g :: 0 <= g < f ==> old(files)[g].ref > 0
    {
      f := 0;
      while f < |files|
        invariant 0 <= f <= |files| && files == old(files) && forall g :: 0 <= g < f ==> files[g].ref > 0
      {
        if files[f].ref == 0 {
          files := files[f := files[f].(ref := 1)];
          return;
        }
        f := f + 1;
      }
      return NONE;
    }

    /** The lowest free descriptor gets f; it takes over the caller's reference. */
    method Fdalloc(p: int, f: int) returns (fd: int)
      requires 0 <= p < |procs| && |procs[p].ofile| == NOFILE
      modifies `procs
      ensures fd == -1 <==> forall i :: 0 <= i < NOFILE ==> old(procs)[p].ofile[i] != NONE
      ensures fd == -1 ==> procs == old(procs)
      ensures fd != -1 ==> 0 <= fd < NOFILE && old(procs)[p].ofile[fd] == NONE && (forall i :: 0 <= i < fd ==> old(procs)[p].ofile[i] != NONE)
      ensures fd != -1 ==> procs == old(procs)[p := old(procs)[p].(ofile := old(procs)[p].ofile[fd := f])]
    {
      fd := 0;
      while fd < NOFILE
        invariant 0 <= fd <= NOFILE && procs == old(procs) && forall i :: 0 <= i < fd ==> procs[p].ofile[i] != NONE
      {
        if procs[p].ofile[fd] == NONE {
          procs := procs[p := procs[p].(ofile := procs[p].ofile[fd := f])];
          return;
        }
        fd := fd + 1;
      }
      return -1;
    }

    /** sys_open's part once it has the inode. */
    method OpenFile(p: int, ino: int, readable: bool, writable: bool) returns (fd: int, ghost f: int)
      requires Valid() && 0 <= p < |procs| && 0 <= ino < |inodes|
      modifies `procs, `files, `held
      ensures Valid() && (fd == -1 ==> S() == old(S()))
      ensures fd == -1 ==> (forall i :: 0 <= i < NOFILE ==> procs[p].ofile[i] != NONE) || (forall g :: 0 <= g < |files| ==> files[g].ref > 0)
      ensures fd != -1 ==> 0 <= fd < NOFILE && 0 <= f < |old(files)| == |old(held)| && old(files)[f].ref == 0
      ensures fd != -1 ==> old(procs)[p].ofile[fd] == NONE && forall i :: 0 <= i < fd ==> old(procs)[p].ofile[i] != NONE
      ensures fd != -1 ==> S() == SetFd(old(S()), p, fd, f).(files := old(files)[f := File(1, true, ino, readable, writable)],
                                                             held := old(held)[f := old(held)[f] + {Fd(p, fd)}])
    {
      ghost var s := S();
      forall g | 0 <= g < |files| ensures files[g].ref >= 0 { assert FileOk(s, g); }
      var got := Filealloc();
      f := got;
      if got == NONE { return -1, f; }
      fd := Fdalloc(p, got);
      if fd < 0 {
        Fileclose(got);
        assert files == s.files;
        return -1, f;
      }
      OpenFd(s, p, fd, got, File(1, true, ino, readable, writable));
      files := files[got := File(files[got].ref, true, ino, readable, writable)];
      held := held[got := held[got] + {Fd(p, fd)}];
      assert S() == SetFd(s, p, fd, got).(files := s.files[got := File(1, true, ino, readable, writable)], held := held);
    }

    /** sys_dup. */
    method Dup(p: int, fd: int) returns (r: int)
      requires Valid() && 0 <= p < |procs| && 0 <= fd < NOFILE && procs[p].ofile[fd] != NONE
      modifies `procs, `files, `held
      ensures Valid() && (r == -1 ==> S() == old(S()))
      ensures r == -1 <==> forall i :: 0 <= i < NOFILE ==> old(procs)[p].ofile[i] != NONE
      ensures r != -1 ==> 0 <= r < NOFILE && 0 <= old(procs)[p].ofile[fd] < |old(files)| == |old(held)|
                          && S() == Up(SetFd(old(S()), p, r, old(procs)[p].ofile[fd]), old(procs)[p].ofile[fd], Fd(p, r))
      ensures r != -1 ==> procs[p].ofile == old(procs)[p].ofile[r := old(procs)[p].ofile[fd]]
      ensures r != -1 ==> old(procs)[p].ofile[r] == NONE && forall i :: 0 <= i < r ==> old(procs)[p].ofile[i] != NONE
    {
      ghost var s := S();
      var f := procs[p].ofile[fd];
      Open(s, Fd(p, fd));
      r := Fdalloc(p, f);
      if r < 0 { return -1; }
      GainFd(s, p, r, f);
      Filedup(f);
      held := held[f := held[f] + {Fd(p, r)}];
      assert S() == Up(SetFd(s, p, r, f), f, Fd(p, r));
    }

    // ---------- sys_mmap ----------

    /** The first unused slot, and the lowest address in use. */
    method Place(p: int) returns (slot: int, lowest: int)
      requires 0 <= p < |procs| && VmasOk(procs[p].space.vmas)
      ensures slot == NONE <==> forall i :: 0 <= i < NVMA ==> procs[p].space.vmas[i].used
      ensures slot != NONE ==> 0 <= slot < NVMA && !procs[p].space.vmas[slot].used
      ensures IsLowest(procs[p].space.vmas, lowest)
    {
      slot, lowest := NONE, TRAPFRAME;
      var i := 0;
      while i < NVMA
        invariant 0 <= i <= NVMA && Aligned(lowest) && lowest <= TRAPFRAME
        invariant slot == NONE <==> forall j :: 0 <= j < i ==> procs[p].space.vmas[j].used
        invariant slot != NONE ==> 0 <= slot < i && !procs[p].space.vmas[slot].used
        invariant forall j :: 0 <= j < i && procs[p].space.vmas[j].used ==> lowest <= procs[p].space.vmas[j].addr
        invariant lowest == TRAPFRAME || exists j :: 0 <= j < i && procs[p].space.vmas[j].used && procs[p].space.vmas[j].addr == lowest
      {
        assert VmaOk(procs[p].space.vmas[i]);
        if !procs[p].space.vmas[i].used && slot == NONE { slot := i; }
        if procs[p].space.vmas[i].used && procs[p].space.vmas[i].addr < lowest { lowest := procs[p].space.vmas[i].addr; }
        i := i + 1;
      }
    }

    /** A region for the whole request below all others, or -1 and nothing changed. */
    method Mmap(p: int, requested: int, length: int, prot: int, flags: int, fd: int, offset: int) returns (r: int, ghost slot: int)
      requires Valid() && 0 <= p < |procs| && 0 <= fd < NOFILE && procs[p].ofile[fd] != NONE && 0 <= length < TWO64
      modifies `procs, `files, `held
      ensures Valid() && (r == -1 ==> S() == old(S())) && KeepsSound(p)
      ensures r == -1 ==>
                || !GoodRequest(old(S()), p, requested, length, prot, flags, fd, offset)
                || (forall i :: 0 <= i < NVMA ==> old(procs)[p].space.vmas[i].used)
                || exists lo :: IsLowest(old(procs)[p].space.vmas, lo) && lo - RoundUp(length) < RoundUp(old(procs)[p].space.sz)
      ensures r != -1 ==> GoodRequest(old(S()), p, requested, length, prot, flags, fd, offset)
      ensures r != -1 ==> IsLowest(old(procs)[p].space.vmas, r + RoundUp(length))
      ensures r != -1 ==>
                var f := old(procs)[p].ofile[fd];
                var v := Vma(true, r, RoundUp(length), ProtOf(prot), flags == MAP_SHARED, f, 0);
                var a := old(procs)[p].space;
                && 0 <= slot < NVMA == |a.vmas| && !a.vmas[slot].used && VmaOk(v) && RoundUp(a.sz) <= r
                && (forall j :: 0 <= j < NVMA && a.vmas[j].used ==> r + v.length <= a.vmas[j].addr)
                && 0 <= f < |old(files)| == |old(held)|
                && S() == Up(SetSpace(old(S()), p, a.(vmas := a.vmas[slot := v])), f, Vm(p, slot))
    {
      ghost var s := S();
      slot := NONE;
      var f := procs[p].ofile[fd];
      Open(s, Fd(p, fd));
      if requested != 0 || offset != 0 || length == 0 || length > MAXVA || (flags != MAP_SHARED && flags != MAP_PRIVATE)
         || prot < 0 || prot > 7 || prot == 0 || !files[f].isInode || !files[f].readable || (flags == MAP_SHARED && ProtOf(prot).w && !files[f].writable) {
        return -1, NONE;
      }
      Rounding(length);
      var len := RoundUp(length);
      var at, lowest := Place(p);
      slot := at;
      if at == NONE || len > lowest || lowest - len < RoundUp(procs[p].space.sz) { return -1, NONE; }
      var v := Vma(true, lowest - len, len, ProtOf(prot), flags == MAP_SHARED, f, offset);
      AlignedSum(lowest, len);
      Added(procs[p].space, at, v);
      GainVma(s, p, at, v);
      Install(p, at, v);
      r := lowest - len;
    }

    method Install(p: int, i: int, v: Vma)
      requires 0 <= p < |procs| && 0 <= i < |procs[p].space.vmas| && 0 <= v.file < |files| == |held| && files[v.file].ref >= 1
      modifies `procs, `files, `held
      ensures S() == Up(SetSpace(old(S()), p, old(procs)[p].space.(vmas := old(procs)[p].space.vmas[i := v])), v.file, Vm(p, i))
    {
      Filedup(v.file);
      procs := PutVma(procs, p, i, v);
      held := held[v.file := held[v.file] + {Vm(p, i)}];
    }

    // ---------- vma_fault ----------

    method FindVma(p: int, addr: int, end: int) returns (i: int)
      requires 0 <= p < |procs| && VmasOk(procs[p].space.vmas) && addr < end
      ensures i == NONE <==> forall j :: 0 <= j < NVMA ==> !(Within(procs[p].space.vmas[j], addr) && end <= procs[p].space.vmas[j].addr + procs[p].space.vmas[j].length)
      ensures i != NONE ==> 0 <= i < NVMA && Within(procs[p].space.vmas[i], addr) && end <= procs[p].space.vmas[i].addr + procs[p].space.vmas[i].length
      ensures i != NONE ==> forall j :: 0 <= j < NVMA && Within(procs[p].space.vmas[j], addr) ==> j == i
    {
      i := 0;
      while i < NVMA
        invariant 0 <= i <= NVMA
        invariant forall j :: 0 <= j < i ==> !(Within(procs[p].space.vmas[j], addr) && end <= procs[p].space.vmas[j].addr + procs[p].space.vmas[j].length)
      {
        ghost var v := procs[p].space.vmas[i];
        if procs[p].space.vmas[i].used && addr >= procs[p].space.vmas[i].addr && end <= procs[p].space.vmas[i].addr + procs[p].space.vmas[i].length {
          forall j | 0 <= j < NVMA && Within(procs[p].space.vmas[j], addr) ensures j == i {
            assert Apart(procs[p].space.vmas[j], v) || Apart(v, procs[p].space.vmas[j]) || j == i;
          }
          return;
        }
        i := i + 1;
      }
      return NONE;
    }

    /** vma_fault once it knows the region: the page is read in. */
    method Fill(p: int, i: int, va: int)
      requires Valid() && 0 <= p < |procs| && 0 <= i < NVMA && Within(procs[p].space.vmas[i], va) && Aligned(va)
      modifies `procs
      ensures Valid() && KeepsSound(p)
      ensures var a := old(procs)[p].space;
              var v := a.vmas[i];
              && 0 <= v.file < |files| && 0 <= files[v.file].ino < |inodes| && Offset(v, va) >= 0
              && S() == SetSpace(old(S()), p, a.(pt := a.pt[va := Page(ReadPage(inodes[files[v.file].ino], Uint(Offset(v, va))), Perm(v.prot))]))
    {
      ghost var s := S();
      var v := procs[p].space.vmas[i];
      assert VmaOk(v);
      Open(s, Vm(p, i));
      var c := inodes[files[v.file].ino];
      var pg := Page(ReadPage(c, Uint(v.off + (va - v.addr))), Perm(v.prot));
      var a := procs[p].space.(pt := procs[p].space.pt[va := pg]);
      Filled(procs[p].space, i, va, pg);
      KeepVmas(s, p, a, inodes);
      procs := procs[p := procs[p].(space := a)];
      assert S() == SetSpace(s, p, a).(inodes := inodes);
    }

    /** The page at faultva is read in, or -1 and nothing changed.  memory says whether the page and
        the tables for it can be had. */
    method Fault(p: int, faultva: int, cause: int, memory: bool) returns (r: int, ghost i: int)
      requires Valid() && 0 <= p < |procs| && 0 <= faultva < TWO64
      modifies `procs
      ensures Valid() && (r == 0 || r == -1) && (r == -1 ==> S() == old(S()))
      ensures KeepsSound(p)
      ensures i == NONE <==> !Vmas.Mapped(old(procs)[p].space.vmas, faultva)
      ensures i != NONE ==> 0 <= i < |old(procs)[p].space.vmas| && Within(old(procs)[p].space.vmas[i], faultva)
      ensures r == 0 <==>
                && i != NONE && memory && RoundDown(faultva) !in old(procs)[p].space.pt
                && var prot := old(procs)[p].space.vmas[i].prot;
                   (cause == 12 ==> prot.x) && (cause == 13 ==> prot.r) && (cause == 15 ==> prot.w)
      ensures r == 0 ==>
                var a := old(procs)[p].space;
                var v := a.vmas[i];
                var va := RoundDown(faultva);
                && 0 <= v.file < |files| && 0 <= files[v.file].ino < |inodes| && Offset(v, va) >= 0
                && S() == SetSpace(old(S()), p, a.(pt := a.pt[va := Page(ReadPage(inodes[files[v.file].ino], Uint(Offset(v, va))), Perm(v.prot))]))
                && va in procs[p].space.pt && GoesThrough(procs[p].space.pt[va].perm, cause)
                && procs[p].space.pt[va].perm == Prot(v.prot.r || v.prot.w, v.prot.w, v.prot.x)
    {
      ghost var a := procs[p].space;
      var k := FindVma(p, faultva, faultva + 1);
      i := k;
      if k == NONE || (cause == 12 && !procs[p].space.vmas[k].prot.x) || (cause == 13 && !procs[p].space.vmas[k].prot.r)
         || (cause == 15 && !procs[p].space.vmas[k].prot.w) { return -1, i; }
      var va := RoundDown(faultva);
      if va in procs[p].space.pt { return -1, i; }
      if !memory { return -1, i; }
      assert VmaOk(a.vmas[k]);
      Rounding(faultva);
      RoundDownAbove(faultva, a.vmas[k].addr);
      Fill(p, k, va);
      r := 0;
    }

    /** The process stores byte x at va; false means a page fault. */
    method UserStore(p: int, va: int, x: int) returns (ok: bool)
      requires Valid() && 0 <= p < |procs|
      modifies `procs
      ensures Valid() && KeepsSound(p)
      ensures ok <==> RoundDown(va) in old(procs)[p].space.pt && old(procs)[p].space.pt[RoundDown(va)].perm.w
      ensures !ok ==> S() == old(S())
      ensures ok ==> 0 <= va - RoundDown(va) < PGSIZE == |old(procs)[p].space.pt[RoundDown(va)].bytes|
      ensures ok ==> S() == SetSpace(old(S()), p, Stored(old(procs)[p].space, va, x))
      ensures ok ==> OneByte(old(procs)[p].space, procs[p].space, va, x)
      ensures ok ==> va < RoundUp(old(procs)[p].space.sz) || Writable(old(procs)[p].space.vmas, va)
      ensures |procs| == |old(procs)| && forall q :: 0 <= q < |procs| && q != p ==> procs[q] == old(procs)[q]
    {
      ghost var s, a := S(), procs[p].space;
      var page := RoundDown(va);
      if page !in procs[p].space.pt || !procs[p].space.pt[page].perm.w { return false; }
      LeavesOk(a);
      Rounding(va);
      var pg := procs[p].space.pt[page];
      procs := PutPt(procs, p, procs[p].space.pt[page := pg.(bytes := pg.bytes[va - page := x])]);
      StoredOk(a, va, x);
      Protected(a, va);
      StoredOne(a, va, x);
      KeepVmas(s, p, Stored(a, va, x), inodes);
      assert S() == SetSpace(s, p, Stored(a, va, x)).(inodes := inodes);
      ok := true;
    }

    // ---------- vma_unmap ----------

    /** One turn of vma_unmap's loop: the page at va, if resident, is written back and removed. */
    method UnmapPage(p: int, i: int, va: int) returns (error: int)
      requires 0 <= p < |procs| && 0 <= i < |procs[p].space.vmas| && 0 <= procs[p].space.vmas[i].file < |files|
      requires 0 <= files[procs[p].space.vmas[i].file].ino < |inodes| && PagesOk(procs[p].space.pt)
      modifies `procs, `inodes
      ensures var a := old(procs)[p].space;
              var v := a.vmas[i];
              var n := files[v.file].ino;
              var o := Uint(Offset(v, va));
              && procs == PutPt(old(procs), p, a.pt - {va})
              && inodes == (if va in a.pt && Dirty(v) then old(inodes)[n := WritePage(old(inodes)[n], o, a.pt[va].bytes)] else old(inodes))
              && error == (if va in a.pt && Dirty(v) && !CanWrite(old(inodes)[n], o) then -1 else 0)
    {
      error := 0;
      ghost var a := procs[p].space;
      var v := procs[p].space.vmas[i];
      if va !in procs[p].space.pt {
        assert a.pt - {va} == a.pt;
        PutSame(procs, p, a.pt);
        return;
      }
      if v.shared && v.prot.w {
        error := PutBack(files[v.file].ino, v.off + (va - v.addr), procs[p].space.pt[va].bytes);
      }
      procs := PutPt(procs, p, procs[p].space.pt - {va});
    }

    /** writei of one page. */
    method PutBack(n: int, off: int, bytes: seq<int>) returns (error: int)
      requires 0 <= n < |inodes| && |bytes| == PGSIZE
      modifies `inodes
      ensures inodes == old(inodes)[n := WritePage(old(inodes)[n], Uint(off), bytes)]
      ensures error == if CanWrite(old(inodes)[n], Uint(off)) then 0 else -1
    {
      error := if CanWrite(inodes[n], Uint(off)) then 0 else -1;
      inodes := inodes[n := WritePage(inodes[n], Uint(off), bytes)];
    }

    method UnmapNext(p: int, i: int, va: int, error: int, ghost s: Sys, ghost addr: int, ghost k: nat) returns (r: int)
      requires Progress(s, S(), p, i, addr, k, error) && va == PageAt(addr, k) && Aligned(va)
      requires forall x :: x in s.procs[p].space.pt ==> Aligned(x)
      modifies `procs, `inodes
      ensures Progress(s, S(), p, i, addr, k + 1, r)
    {
      ghost var a := s.procs[p].space;
      WithoutNext(a.pt, addr, va);
      assert va in procs[p].space.pt <==> va in a.pt;
      var e := UnmapPage(p, i, va);
      assert e == 0 <==> Written(s.inodes[s.files[a.vmas[i].file].ino], a.pt, a.vmas[i], addr, k);
      r := if e != 0 then e else error;
    }

    /** The loop: n pages from addr on. */
    method UnmapPages(p: int, i: int, addr: int, end: int, ghost n: nat) returns (error: int)
      requires 0 <= p < |procs| && 0 <= i < |procs[p].space.vmas| && Aligned(addr) && end == PageAt(addr, n)
      requires PagesOk(procs[p].space.pt) && IsFile(S(), procs[p].space.vmas[i].file) && 0 <= files[procs[p].space.vmas[i].file].ino < |inodes|
      requires forall x :: x in procs[p].space.pt ==> Aligned(x)
      modifies `procs, `inodes
      ensures Progress(old(S()), S(), p, i, addr, n, error)
    {
      ghost var s := S();
      error := 0;
      var va := addr;
      ghost var k := 0;
      assert Without(procs[p].space.pt, addr, addr) == procs[p].space.pt;
      PutSame(procs, p, Without(procs[p].space.pt, addr, addr));
      while va < end
        invariant 0 <= k <= n && va == PageAt(addr, k) && Aligned(va) && Progress(s, S(), p, i, addr, k, error)
      {
        error := UnmapNext(p, i, va, error, s, addr, k);
        AlignedSum(va, PGSIZE);
        va, k := va + PGSIZE, k + 1;
      }
    }

    /** vma_unmap for a range that is all right. */
    method Cut(p: int, i: int, addr: int, end: int) returns (r: int)
      requires Valid() && 0 <= p < |procs| && 0 <= i < NVMA && CanUnmap(procs[p].space.vmas[i], addr, end)
      modifies `procs, `files, `inodes, `held
      ensures Valid() && (r == 0 || r == -1) && Gone(old(S()), S(), p, i, addr, end, r)
      ensures KeepsSound(p)
    {
      ghost var s := S();
      var v := procs[p].space.vmas[i];
      PagesExact(addr, end);
      assert VmaOk(v);
      Open(s, Vm(p, i));
      LeavesOk(procs[p].space);
      r := UnmapPages(p, i, addr, end, Pages(addr, end));
      Shrink(p, i, v, addr, end);
      GoneInv(s, S(), p, i, addr, end, r);
    }

    /** The end of vma_unmap: the region itself. */
    method Shrink(p: int, i: int, v: Vma, addr: int, end: int)
      requires 0 <= p < |procs| && 0 <= i < |procs[p].space.vmas| && 0 <= v.file < |files| == |held| && files[v.file].ref >= 1
      requires CanUnmap(v, addr, end)
      modifies `procs, `files, `held
      ensures procs == PutVma(old(procs), p, i, Rest(v, addr, end))
      ensures if end - addr == v.length
              then files == old(files)[v.file := old(files)[v.file].(ref := old(files)[v.file].ref - 1)] && held == old(held)[v.file := old(held)[v.file] - {Vm(p, i)}]
              else files == old(files) && held == old(held)
    {
      if addr == v.addr && end == v.addr + v.length {
        Fileclose(v.file);
        procs := PutVma(procs, p, i, UNUSED);
        held := held[v.file := held[v.file] - {Vm(p, i)}];
      } else if addr == v.addr {
        procs := PutVma(procs, p, i, v.(addr := end, off := v.off + (end - addr), length := v.length - (end - addr)));
      } else {
        procs := PutVma(procs, p, i, v.(length := v.length - (end - addr)));
      }
    }

    /** vma_unmap: -1 with nothing done for a bad range; otherwise exactly the pages of the range go, and
        what is left of the region keeps its place in the file. */
    method Unmap(p: int, addr: int, length: int) returns (r: int, ghost i: int)
      requires Valid() && 0 <= p < |procs| && 0 <= addr < TWO64 && 0 <= length < TWO64
      modifies `procs, `files, `inodes, `held
      ensures Valid() && (r == 0 || r == -1) && KeepsSound(p)
      ensures i == NONE <==> !GoodRange(old(procs)[p].space.vmas, addr, length)
      ensures i == NONE ==> r == -1 && S() == old(S())
      ensures i != NONE ==> 0 <= i < NVMA && Gone(old(S()), S(), p, i, addr, addr + RoundUp(length), r)
    {
      ghost var s := S();
      i := NONE;
      if addr % PGSIZE != 0 || length == 0 || length > MAXVA { return -1, i; }
      Rounding(length);
      var len := RoundUp(length);
      if (addr + len) % TWO64 < addr {
        return -1, i;
      }
      var end := addr + len;
      AlignedSum(addr, len);
      var k := FindVma(p, addr, end);
      if k == NONE || (addr != procs[p].space.vmas[k].addr && end != procs[p].space.vmas[k].addr + procs[p].space.vmas[k].length) {
        return -1, i;
      }
      i := k;
      r := Cut(p, k, addr, end);
    }

    // ---------- vma_unmap_all, exit, exec ----------

    /** The whole of region i goes. */
    method UnmapRegion(p: int, i: int, ghost addr: int, ghost end: int) returns (r: int)
      requires Valid() && 0 <= p < |procs| && 0 <= i < NVMA && procs[p].space.vmas[i].used
      requires addr == procs[p].space.vmas[i].addr && end == addr + procs[p].space.vmas[i].length
      modifies `procs, `files, `inodes, `held
      ensures Valid() && Gone(old(S()), S(), p, i, addr, end, r)
    {
      WholeRange(procs[p].space.vmas, i);
      ghost var k;
      r, k := Unmap(p, procs[p].space.vmas[i].addr, procs[p].space.vmas[i].length);
    }

    /** One turn of vma_unmap_all's loop. */
    method UnmapSlot(p: int, i: nat, ghost s: Sys)
      requires Valid() && 0 <= p < |procs| && i < NVMA && Partly(s, S(), p, i) && VmasOk(s.procs[p].space.vmas)
      modifies `procs, `files, `inodes, `held
      ensures Valid() && Partly(s, S(), p, i + 1)
    {
      if procs[p].space.vmas[i].used {
        ghost var s1 := S();
        var r := UnmapRegion(p, i, procs[p].space.vmas[i].addr, procs[p].space.vmas[i].addr + procs[p].space.vmas[i].length);
        PartlyNext(s, s1, S(), p, i, r);
      } else {
        PartlySkip(s, S(), p, i);
      }
    }

    /** All regions go, with their pages, and every shared writable one is written back; of a sound space
        exactly the heap is left. */
    method UnmapAll(p: int)
      requires Valid() && 0 <= p < |procs|
      modifies `procs, `files, `inodes, `held
      ensures Valid() && OnlySpace(old(procs), procs, p) && procs[p].space == Bare(old(procs)[p].space)
      ensures PagesOk(old(procs)[p].space.pt) && |old(procs)[p].space.vmas| == NVMA && inodes == AllBack(old(S()), p, NVMA)
      ensures Sound(old(procs)[p].space) ==> Sound(procs[p].space) && OnlyHeap(procs[p].space)
    {
      ghost var s := S();
      LeavesOk(procs[p].space);
      assert SpaceOk(s.procs[p].space);
      var i := 0;
      while i < NVMA
        invariant 0 <= i <= NVMA && Valid() && Partly(s, S(), p, i)
      {
        UnmapSlot(p, i, s);
        i := i + 1;
      }
      AllGone(s, S(), p);
      if Sound(s.procs[p].space) { SoundTeardown(s.procs[p].space); }
    }

    /** exit's part: afterwards process p holds no file, and its page table has only the heap. */
    method Exit(p: int)
      requires Valid() && 0 <= p < |procs|
      modifies `procs, `files, `inodes, `held
      ensures Valid() && |procs| == |old(procs)| && forall q :: 0 <= q < |procs| && q != p ==> procs[q] == old(procs)[q]
      ensures procs[p] == Proc(seq(NOFILE, _ => NONE), Bare(old(procs)[p].space))
      ensures PagesOk(old(procs)[p].space.pt) && |old(procs)[p].space.vmas| == NVMA && inodes == AllBack(old(S()), p, NVMA)
      ensures Sound(old(procs)[p].space) ==> OnlyHeap(procs[p].space)
    {
      UnmapAll(p);
      ghost var a := procs[p].space;
      ghost var d := inodes;
      var fd := 0;
      while fd < NOFILE
        invariant 0 <= fd <= NOFILE && Valid() && |procs| == |old(procs)| && procs[p].space == a && inodes == d
        invariant forall q :: 0 <= q < |procs| && q != p ==> procs[q] == old(procs)[q]
        invariant forall i :: 0 <= i < fd ==> procs[p].ofile[i] == NONE
      {
        if procs[p].ofile[fd] != NONE { Close(p, fd); }
        fd := fd + 1;
      }
      assert procs[p].ofile == seq(NOFILE, _ => NONE);
    }

    method Close(p: int, fd: int)
      requires Valid() && 0 <= p < |procs| && 0 <= fd < NOFILE && procs[p].ofile[fd] != NONE
      modifies `procs, `files, `held
      ensures Valid() && 0 <= old(procs)[p].ofile[fd] < |old(files)|
      ensures S() == Down(SetFd(old(S()), p, fd, NONE), old(procs)[p].ofile[fd], Fd(p, fd))
      ensures procs[p].ofile == old(procs)[p].ofile[fd := NONE]
    {
      LoseFd(S(), p, fd);
      var f := procs[p].ofile[fd];
      Fileclose(f);
      procs := procs[p := procs[p].(ofile := procs[p].ofile[fd := NONE])];
      held := held[f := held[f] - {Fd(p, fd)}];
      assert S() == Down(SetFd(old(S()), p, fd, NONE), f, Fd(p, fd));
    }

    /** exec's point of no return: image is the new program's memory, of size newsz. */
    method Exec(p: int, newsz: nat, image: map<int, Page>)
      requires Valid() && 0 <= p < |procs| && newsz < TWO32
      requires PagesOk(image) && forall va :: va in image <==> 0 <= va < RoundUp(newsz) && Aligned(va)
      modifies `procs, `files, `inodes, `held
      ensures Valid() && |procs| == |old(procs)| && forall q :: 0 <= q < |procs| && q != p ==> procs[q] == old(procs)[q]
      ensures procs[p].ofile == old(procs)[p].ofile && procs[p].space.sz == newsz && procs[p].space.pt == image
      ensures (forall i :: 0 <= i < NVMA ==> !procs[p].space.vmas[i].used) && Sound(procs[p].space)
      ensures PagesOk(old(procs)[p].space.pt) && |old(procs)[p].space.vmas| == NVMA && inodes == AllBack(old(S()), p, NVMA)
    {
      UnmapAll(p);
      ghost var s := S();
      var a := Space(newsz, procs[p].space.vmas, image);
      KeepVmas(s, p, a, inodes);
      procs := procs[p := procs[p].(space := a)];
      assert S() == SetSpace(s, p, a).(inodes := inodes);
    }

    // ---------- growproc ----------

    /** uvmalloc over the pages from RoundUp(oldsz) on; `pages` pages can be had before memory runs out. */
    method GrowHeap(p: int, oldsz: nat, newsz: nat, pages: nat) returns (out: Grown)
      requires 0 <= p < |procs| && oldsz <= newsz && forall x :: x in procs[p].space.pt ==> Aligned(x)
      modifies `procs
      ensures |procs| == |old(procs)| && (out == Done ==> procs == PutPt(old(procs), p, WithHeap(old(procs)[p].space.pt, oldsz, newsz)))
      ensures out == Fails ==> procs == old(procs)
      ensures var pt, lo, hi, top := old(procs)[p].space.pt, RoundUp(oldsz), RoundUp(newsz), RoundUp(oldsz) + pages * PGSIZE;
              (out == Done <==> hi <= top && !Blocked(pt, lo, hi)) && (out == Fails <==> top < hi && !Blocked(pt, lo, top))
    {
      ghost var pt := procs[p].space.pt;
      var lo := RoundUp(oldsz);
      Rounding(oldsz);
      Rounding(newsz);
      RoundUpBelow(oldsz, RoundUp(newsz));
      var a, k := lo, 0;
      WithHeapNone(pt, oldsz);
      PutSame(procs, p, pt);
      while a < newsz
        invariant 0 <= k <= pages && a == lo + k * PGSIZE <= RoundUp(newsz) && Aligned(a) && !Blocked(pt, lo, a)
        invariant procs == PutPt(old(procs), p, WithHeap(pt, oldsz, a))
      {
        AlignedSum(a, RoundUp(newsz));
        Exact(a);
        if k == pages {
          WithHeapUndone(pt, oldsz, a);
          procs := PutPt(procs, p, Without(procs[p].space.pt, lo, a));
          PutSame(old(procs), p, pt);
          return Fails;
        }
        assert a in procs[p].space.pt <==> a in pt;
        if a in procs[p].space.pt { return Panics; }
        WithHeapNext(pt, oldsz, a);
        OnePage(pt, a);
        procs := PutPt(procs, p, procs[p].space.pt[a := HeapPage()]);
        AlignedSum(a, PGSIZE);
        a, k := a + PGSIZE, k + 1;
      }
      RoundUpBelow(newsz, a);
      SameHeap(pt, oldsz, newsz, a);
      out := Done;
    }

    /** uvmdealloc from oldsz to newsz. */
    method ShrinkHeap(p: int, oldsz: nat, newsz: nat) returns (panics: bool)
      requires 0 <= p < |procs| && newsz <= oldsz && forall x :: x in procs[p].space.pt ==> Aligned(x)
      modifies `procs
      ensures panics <==> Holed(old(procs)[p].space.pt, RoundUp(newsz), RoundUp(oldsz))
      ensures !panics ==> procs == PutPt(old(procs), p, Without(old(procs)[p].space.pt, RoundUp(newsz), RoundUp(oldsz)))
    {
      ghost var pt := procs[p].space.pt;
      var lo, hi := RoundUp(newsz), RoundUp(oldsz);
      Rounding(oldsz);
      Rounding(newsz);
      RoundUpBelow(newsz, hi);
      var a := lo;
      assert Without(pt, lo, lo) == pt;
      PutSame(procs, p, pt);
      while a < hi
        invariant lo <= a <= hi && Aligned(a) && !Holed(pt, lo, a) && procs == PutPt(old(procs), p, Without(pt, lo, a))
      {
        AlignedSum(a, hi);
        assert a in procs[p].space.pt <==> a in pt;
        if a !in procs[p].space.pt { return true; }
        WithoutNext(pt, lo, a);
        procs := PutPt(procs, p, procs[p].space.pt - {a});
        AlignedSum(a, PGSIZE);
        forall x | lo <= x < a + PGSIZE && Aligned(x) ensures x in pt { if x > a { AlignedSum(a, x); } }
        a := a + PGSIZE;
      }
      panics := false;
    }

    /** growproc by a positive amount.  Of a sound space, the teardown after growing meets what it expects
        exactly if no region meets the new part of the heap. */
    method Enlarge(p: int, newsz: nat, pages: nat) returns (out: Grown)
      requires Valid() && 0 <= p < |procs| && procs[p].space.sz <= newsz < TWO32
      modifies `procs
      ensures Enlarged(old(S()), S(), p, newsz, pages, out)
      ensures out != Panics ==> Valid()
      ensures out == Done && Sound(old(procs)[p].space) ==>
                && (OnlyHeap(Bare(procs[p].space)) <==> Harmless(old(procs)[p].space, newsz))
                && (Sound(procs[p].space) <==> Harmless(old(procs)[p].space, newsz))
      ensures out == Done ==> Resized(old(procs)[p].space, procs[p].space, newsz)
    {
      ghost var s, a := S(), procs[p].space;
      LeavesOk(a);
      out := GrowHeap(p, procs[p].space.sz, newsz, pages);
      if out == Done {
        procs := PutSize(procs, p, newsz);
        GrownOk(a, newsz);
        ResizedOk(a, newsz);
        if Sound(a) { GrowTeardown(a, newsz); }
        KeepVmas(s, p, GrownTo(a, newsz), inodes);
        assert S() == SetSpace(s, p, GrownTo(a, newsz)).(inodes := inodes);
      }
    }

    /** growproc by a negative amount. */
    method Reduce(p: int, newsz: nat) returns (panics: bool)
      requires Valid() && 0 <= p < |procs| && newsz <= procs[p].space.sz
      modifies `procs
      ensures panics <==> Holed(old(procs)[p].space.pt, RoundUp(newsz), RoundUp(old(procs)[p].space.sz))
      ensures !panics ==> Valid() && S() == SetSpace(old(S()), p, ShrunkTo(old(procs)[p].space, newsz)) && KeepsSound(p)
      ensures Sound(old(procs)[p].space) ==> !panics
      ensures !panics ==> Resized(old(procs)[p].space, procs[p].space, newsz)
    {
      ghost var s, a := S(), procs[p].space;
      LeavesOk(a);
      NoHole(a, newsz);
      panics := ShrinkHeap(p, procs[p].space.sz, newsz);
      if panics { return; }
      procs := PutSize(procs, p, newsz);
      ShrunkOk(a, newsz);
      ResizedOk(a, newsz);
      KeepVmas(s, p, ShrunkTo(a, newsz), inodes);
      assert S() == SetSpace(s, p, ShrunkTo(a, newsz)).(inodes := inodes);
    }

    /** growproc.  The new size is a uint: a sum of 2^32 or more, or below zero, leaves everything as it is
        and succeeds. */
    method Growproc(p: int, n: int, pages: nat) returns (out: Grown)
      requires Valid() && 0 <= p < |procs| && -0x8000_0000 <= n < 0x8000_0000
      modifies `procs
      ensures out != Panics ==> Valid() && |procs| == |old(procs)|
      ensures out == Done ==> procs[p].space.sz == NewSize(old(procs)[p].space.sz, n)
      ensures var a, newsz := old(procs)[p].space, old(procs)[p].space.sz + n;
              && (n == 0 || newsz >= TWO32 || newsz < 0 ==> out == Done && S() == old(S()))
              && (n > 0 && newsz < TWO32 ==> Enlarged(old(S()), S(), p, newsz, pages, out))
              && (n > 0 && newsz < TWO32 && out == Done && Sound(a) ==>
                    (OnlyHeap(Bare(procs[p].space)) <==> Harmless(a, newsz)) && (Sound(procs[p].space) <==> Harmless(a, newsz)))
              && (n < 0 && 0 <= newsz ==> (out == Panics <==> Holed(a.pt, RoundUp(newsz), RoundUp(a.sz))) && (Sound(a) ==> out == Done))
              && (n < 0 && 0 <= newsz && out != Panics ==> out == Done && S() == SetSpace(old(S()), p, ShrunkTo(a, newsz)) && KeepsSound(p))
              && (out == Done && n != 0 && 0 <= newsz < TWO32 ==> Resized(a, procs[p].space, newsz))
    {
      var sz := procs[p].space.sz;
      out := Done;
      UintSum(sz, n);
      if n > 0 {
        var newsz := (sz + n) % TWO32;
        if newsz >= sz { out := Enlarge(p, newsz, pages); }
      } else if n < 0 {
        var newsz := (sz + n) % TWO32;
        if newsz < sz {
          var panics := Reduce(p, newsz);
          out := if panics then Panics else Done;
        }
      }
    }

    /** The condition is not idle: mmap of all that is free above a heap of whole pages, then sbrk(1) and exit
        leave a page table that lacks the last page of the heap. */
    method HeapMeetsRegion(p: int, fd: int) returns (r: int, out: Grown)
      requires Valid() && 0 <= p < |procs| && Sound(procs[p].space) && 0 < procs[p].space.sz < TWO32 - 1 && Aligned(procs[p].space.sz)
      requires 0 <= fd < NOFILE && procs[p].ofile[fd] != NONE && (forall i :: 0 <= i < NVMA ==> !procs[p].space.vmas[i].used)
      requires GoodRequest(S(), p, 0, TRAPFRAME - procs[p].space.sz, 1, MAP_PRIVATE, fd, 0)
      modifies `procs, `files, `inodes, `held
      ensures r == old(procs)[p].space.sz && out == Done
      ensures |procs| == |old(procs)| && procs[p].space.sz == r + 1 && r !in procs[p].space.pt && !OnlyHeap(procs[p].space)
    {
      ghost var slot;
      var sz := procs[p].space.sz;
      ghost var a := procs[p].space;
      Exact(sz);
      assert Aligned(TRAPFRAME);
      AlignedSum(TRAPFRAME, sz);
      Exact(TRAPFRAME - sz);
      assert !a.vmas[0].used;
      forall lo | IsLowest(a.vmas, lo) ensures lo == TRAPFRAME && lo - RoundUp(TRAPFRAME - sz) >= RoundUp(sz) {}
      r, slot := Mmap(p, 0, TRAPFRAME - sz, 1, MAP_PRIVATE, fd, 0);
      assert r != -1 && r + (TRAPFRAME - sz) == TRAPFRAME;
      ghost var b := procs[p].space;
      assert b.sz == sz && b.pt == a.pt && Within(b.vmas[slot], sz);
      NextPageUp(sz);
      NotBlocked(a, sz + 1);
      out := Growproc(p, 1, 1);
      assert Vmas.Mapped(procs[p].space.vmas, sz);
      UnmapAll(p);
    }

    // ---------- 4 GiB into a mapping ----------

    /** mmap of 4 GiB and a page more, shared and writable, by a process without regions. */
    method FarMap(p: int, fd: int) returns (r: int, ghost slot: int)
      requires Valid() && 0 <= p < |procs| && 0 <= fd < NOFILE && procs[p].ofile[fd] != NONE
      requires forall i :: 0 <= i < NVMA ==> !procs[p].space.vmas[i].used
      requires GoodRequest(S(), p, 0, TWO32 + PGSIZE, 3, MAP_SHARED, fd, 0)
      modifies `procs, `files, `held
      ensures Valid() && |procs| == |old(procs)| && r == TRAPFRAME - TWO32 - PGSIZE && (forall x :: x in procs[p].space.pt ==> x < r)
      ensures 0 <= slot < NVMA && procs[p].space.vmas[slot] == Vma(true, r, TWO32 + PGSIZE, ProtOf(3), true, old(procs)[p].ofile[fd], 0)
      ensures |files| == |old(files)| && forall f :: 0 <= f < |files| ==> files[f].ino == old(files)[f].ino
    {
      ghost var a := procs[p].space;
      AlignedSum(TWO32, PGSIZE);
      Exact(TWO32 + PGSIZE);
      Rounding(a.sz);
      assert !a.vmas[0].used;
      forall lo | IsLowest(a.vmas, lo) ensures lo == TRAPFRAME && lo - RoundUp(TWO32 + PGSIZE) >= RoundUp(a.sz) {}
      r, slot := Mmap(p, 0, TWO32 + PGSIZE, 3, MAP_SHARED, fd, 0);
      NoneAbove(a, r);
    }

    /** And a store to its last page: no other page of the region is resident. */
    method FarStore(p: int, fd: int, x: int) returns (r: int)
      requires Valid() && 0 <= p < |procs| && 0 <= fd < NOFILE && procs[p].ofile[fd] != NONE
      requires forall i :: 0 <= i < NVMA ==> !procs[p].space.vmas[i].used
      requires GoodRequest(S(), p, 0, TWO32 + PGSIZE, 3, MAP_SHARED, fd, 0)
      modifies `procs, `files, `held
      ensures Valid() && |procs| == |old(procs)| && r == TRAPFRAME - TWO32 - PGSIZE
      ensures FarPage(S(), p, r, old(procs)[p].ofile[fd], x)
      ensures |files| == |old(files)| && forall f :: 0 <= f < |files| ==> files[f].ino == old(files)[f].ino
    {
      ghost var slot, i;
      r, slot := FarMap(p, fd);
      AlignedSum(r, TWO32);
      FloorExact(r + TWO32);
      OnlyIn(procs[p].space.vmas, slot, r + TWO32);
      assert Vmas.Mapped(procs[p].space.vmas, r + TWO32);
      var f;
      f, i := Fault(p, r + TWO32, 15, true);
      var ok := UserStore(p, r + TWO32, x);
    }

    /** munmap then writes the page over the start of the file: its first byte is x. */
    method StoreWraps(p: int, fd: int, x: int) returns (r: int)
      requires Valid() && 0 <= p < |procs| && 0 <= fd < NOFILE && procs[p].ofile[fd] != NONE
      requires forall i :: 0 <= i < NVMA ==> !procs[p].space.vmas[i].used
      requires GoodRequest(S(), p, 0, TWO32 + PGSIZE, 3, MAP_SHARED, fd, 0)
      modifies `procs, `files, `inodes, `held
      ensures r == 0 && 0 <= old(files)[old(procs)[p].ofile[fd]].ino < |inodes|
      ensures var c := inodes[old(files)[old(procs)[p].ofile[fd]].ino]; |c| > 0 && c[0] == x
    {
      var addr := FarStore(p, fd, x);
      ghost var s, i := S(), 0;
      AlignedSum(TWO32, PGSIZE);
      Exact(TWO32 + PGSIZE);
      r, i := Unmap(p, addr, TWO32 + PGSIZE);
      FarWritten(s, S(), p, i, addr, r, old(procs)[p].ofile[fd], x);
    }

    // ---------- fork ----------

    /** Whether uvmcopy finds every page of the heap. */
    method HeapWhole(p: int) returns (whole: bool)
      requires 0 <= p < |procs| && 0 <= procs[p].space.sz
      ensures whole <==> HeapOk(procs[p].space)
    {
      var i := 0;
      Rounding(procs[p].space.sz);
      while i < procs[p].space.sz
        invariant 0 <= i && Aligned(i) && forall x :: 0 <= x < i && Aligned(x) ==> x in procs[p].space.pt
      {
        AlignedSum(i, RoundUp(procs[p].space.sz));
        if i !in procs[p].space.pt { return false; }
        forall x | 0 <= x < i + PGSIZE && Aligned(x) ensures x in procs[p].space.pt { if x > i { AlignedSum(i, x); } }
        AlignedSum(i, PGSIZE);
        i := i + PGSIZE;
      }
      RoundUpBelow(procs[p].space.sz, i);
      whole := true;
    }

    /** fork's copy of process p into the fresh slot c; `memory` says whether uvmcopy gets the pages it needs.
        uvmcopy panics at a hole in the heap. */
    method Fork(p: int, c: int, memory: bool) returns (r: int, panicked: bool)
      requires Valid() && 0 <= p < |procs| && 0 <= c < |procs| && p != c
      requires (forall fd :: 0 <= fd < NOFILE ==> procs[c].ofile[fd] == NONE) && forall i :: 0 <= i < NVMA ==> procs[c].space.vmas[i] == UNUSED
      modifies `procs, `files, `held
      ensures Valid() && (panicked <==> memory && !HeapOk(old(procs)[p].space))
      ensures !memory || panicked ==> r == -1 && S() == old(S())
      ensures memory && !panicked ==> r == 0 && |procs| == |old(procs)| && forall q :: 0 <= q < |procs| && q != c ==> procs[q] == old(procs)[q]
      ensures memory && !panicked ==> procs[c].ofile == old(procs)[p].ofile && IsCopy(old(procs)[p].space, procs[c].space)
      ensures memory && !panicked && Sound(old(procs)[p].space) ==> Sound(procs[c].space)
    {
      if !memory { return -1, false; }
      var whole := HeapWhole(p);
      if !whole { return -1, true; }
      panicked := false;
      ghost var s := S();
      ghost var a := procs[p].space;
      PartForkedOk(a, 0);
      KeepVmas(s, c, PartForked(a, 0), inodes);
      procs := procs[c := procs[c].(space := Space(procs[p].space.sz, procs[c].space.vmas, Forked(procs[p].space).pt))];
      assert procs[c].space == PartForked(a, 0);
      assert S() == SetSpace(s, c, PartForked(a, 0)).(inodes := inodes);
      var i := 0;
      while i < NOFILE
        invariant 0 <= i <= NOFILE && Valid() && |procs| == |s.procs| && inodes == s.inodes && procs[c].space == PartForked(a, 0)
        invariant forall q :: 0 <= q < |procs| && q != c ==> procs[q] == s.procs[q]
        invariant forall j :: 0 <= j < NOFILE ==> procs[c].ofile[j] == if j < i then procs[p].ofile[j] else NONE
      {
        if procs[p].ofile[i] != NONE { Share(p, c, i); }
        i := i + 1;
      }
      assert procs[c].ofile == procs[p].ofile;
      i := 0;
      while i < NVMA
        invariant 0 <= i <= NVMA && Valid() && |procs| == |s.procs| && inodes == s.inodes && procs[c] == Proc(procs[p].ofile, PartForked(a, i))
        invariant forall q :: 0 <= q < |procs| && q != c ==> procs[q] == s.procs[q]
      {
        CopyVma(p, c, i);
        i := i + 1;
      }
      assert PartForked(a, NVMA) == Forked(a);
      ForkedOk(a);
      ForkedSame(a);
      r := 0;
    }

    /** fork, a store by the parent and one by the child: neither sees the other's.  ok and ok' say whether the
        stores went through. */
    method ForkApart(p: int, c: int, va: int, x: int, va': int, x': int) returns (ok: bool, ok': bool)
      requires Valid() && 0 <= p < |procs| && 0 <= c < |procs| && p != c && HeapOk(procs[p].space)
      requires (forall fd :: 0 <= fd < NOFILE ==> procs[c].ofile[fd] == NONE) && forall i :: 0 <= i < NVMA ==> procs[c].space.vmas[i] == UNUSED
      modifies `procs, `files, `held
      ensures Valid() && |procs| == |old(procs)|
      ensures forall y :: 0 <= y < RoundUp(old(procs)[p].space.sz) ==>
                && Resident(old(procs)[p].space, y) && Resident(procs[p].space, y) && Resident(procs[c].space, y)
                && Byte(procs[p].space, y) == (if ok && y == va then x else Byte(old(procs)[p].space, y))
                && Byte(procs[c].space, y) == (if ok' && y == va' then x' else Byte(old(procs)[p].space, y))
    {
      ghost var a := procs[p].space;
      var r, panicked := Fork(p, c, true);
      ghost var b := procs[c].space;
      ok := UserStore(p, va, x);
      ok' := UserStore(c, va', x');
      forall y | 0 <= y < RoundUp(a.sz) ensures Resident(a, y) && Resident(b, y) && Byte(b, y) == Byte(a, y) { HeapByte(a, b, y); }
    }

    method Share(p: int, c: int, i: int)
      requires Valid() && 0 <= p < |procs| && 0 <= c < |procs| && 0 <= i < NOFILE && procs[p].ofile[i] != NONE && procs[c].ofile[i] == NONE
      modifies `procs, `files, `held
      ensures Valid() && procs == SetFd(old(S()), c, i, old(procs)[p].ofile[i]).procs
    {
      var f := procs[p].ofile[i];
      Open(S(), Fd(p, i));
      GainFd(S(), c, i, f);
      Filedup(f);
      procs := procs[c := procs[c].(ofile := procs[c].ofile[i := f])];
      held := held[f := held[f] + {Fd(c, i)}];
      assert S() == Up(SetFd(old(S()), c, i, f), f, Fd(c, i));
    }

    method CopyVma(p: int, c: int, i: int)
      requires Valid() && 0 <= p < |procs| && 0 <= c < |procs| && p != c && 0 <= i < NVMA && procs[c].space == PartForked(procs[p].space, i)
      modifies `procs, `files, `held
      ensures Valid() && procs == old(procs)[c := old(procs)[c].(space := PartForked(old(procs)[p].space, i + 1))]
    {
      ghost var s := S();
      ghost var a := procs[p].space;
      var v := procs[p].space.vmas[i];
      if !v.used {
        assert VmaOk(v);
        assert PartForked(a, i + 1).vmas == PartForked(a, i).vmas;
        assert PartForked(a, i + 1) == PartForked(a, i);
        assert procs[c].(space := procs[c].space) == procs[c];
        return;
      }
      assert VmaOk(v);
      Open(s, Vm(p, i));
      PartForkedOk(a, i + 1);
      assert PartForked(a, i + 1).vmas == procs[c].space.vmas[i := v];
      assert PartForked(a, i + 1) == procs[c].space.(vmas := procs[c].space.vmas[i := v]);
      GainVma(s, c, i, v);
      Install(c, i, v);
    }
  }

  /** The range of a whole region is a good one, and of that region only. */
  lemma WholeRange(vmas: seq<Vma>, i: int)
    requires VmasOk(vmas) && 0 <= i < NVMA && vmas[i].used
    ensures var v := vmas[i];
            && 0 <= v.addr < TWO64 && 0 <= v.length < TWO64 && RoundUp(v.length) == v.length && GoodRange(vmas, v.addr, v.length)
            && forall k :: 0 <= k < NVMA && CanUnmap(vmas[k], v.addr, v.addr + v.length) ==> k == i
  {
    var v := vmas[i];
    assert VmaOk(v);
    AlignedSum(v.addr, v.length);
    Exact(v.length);
    assert CanUnmap(vmas[i], v.addr, v.addr + RoundUp(v.length));
    forall k | 0 <= k < NVMA && CanUnmap(vmas[k], v.addr, v.addr + v.length) ensures k == i {
      assert Apart(vmas[i], vmas[k]) || Apart(vmas[k], vmas[i]) || k == i;
    }
  }

  // ---------- vma_unmap_all ----------

  /** The inodes after the first i regions of process p were written back, in this order. */
  ghost function AllBack(s: Sys, p: int, i: nat): (r: seq<seq<int>>)
    requires 0 <= p < |s.procs| && i <= |s.procs[p].space.vmas| && PagesOk(s.procs[p].space.pt)
    ensures |r| == |s.inodes|
  {
    if i == 0 then s.inodes
    else
      var d := AllBack(s, p, i - 1);
      var v := s.procs[p].space.vmas[i - 1];
      if !v.used || !IsFile(s, v.file) || !(0 <= s.files[v.file].ino < |d|) || v.length < 0 then d
      else
        var ino := s.files[v.file].ino;
        d[ino := WriteBack(d[ino], s.procs[p].space.pt, v, v.addr, Pages(v.addr, v.addr + v.length))]
  }

  /** Inodes that no shared writable region maps stay as they are. */
  lemma {:induction false} AllBackKeeps(s: Sys, p: int, i: nat, n: int)
    requires 0 <= p < |s.procs| && i <= |s.procs[p].space.vmas| && PagesOk(s.procs[p].space.pt) && 0 <= n < |s.inodes|
    requires forall j :: 0 <= j < i ==> !Maps(s, s.procs[p].space.vmas[j], n)
    ensures AllBack(s, p, i)[n] == s.inodes[n]
  {
    if i > 0 {
      AllBackKeeps(s, p, i - 1, n);
      var v := s.procs[p].space.vmas[i - 1];
      if v.used && IsFile(s, v.file) && s.files[v.file].ino == n && v.length >= 0 {
        assert !Maps(s, v, n);
        CleanKeeps(s.inodes[n], s.procs[p].space.pt, v, v.addr, Pages(v.addr, v.addr + v.length));
      }
    }
  }

  ghost predicate Maps(s: Sys, v: Vma, n: int) { v.used && Dirty(v) && 0 <= v.file < |s.files| && s.files[v.file].ino == n }

  /** x is in none of the first i regions. */
  ghost predicate Clear(vmas: seq<Vma>, i: int, x: int) { forall j :: 0 <= j < i && j < |vmas| ==> !Within(vmas[j], x) }

  /** The pages of pt that are clear of the first i regions. */
  ghost predicate Rid(vmas: seq<Vma>, i: int, pt: map<int, Page>, pt': map<int, Page>) {
    forall x :: (x in pt' <==> x in pt && Clear(vmas, i, x)) && (x in pt' && x in pt ==> pt'[x] == pt[x])
  }

  /** vma_unmap_all has dealt with the first i regions. */
  ghost predicate Partly(s: Sys, s1: Sys, p: int, i: nat) {
    && OnlySpace(s.procs, s1.procs, p) && i <= NVMA == |s.procs[p].space.vmas| == |s1.procs[p].space.vmas|
    && (forall j :: 0 <= j < NVMA ==> s1.procs[p].space.vmas[j] == if j < i then UNUSED else s.procs[p].space.vmas[j])
    && Rid(s.procs[p].space.vmas, i, s.procs[p].space.pt, s1.procs[p].space.pt)
    && |s1.files| == |s.files| && (forall f :: 0 <= f < |s.files| ==> s1.files[f].ino == s.files[f].ino)
    && PagesOk(s.procs[p].space.pt) && s1.inodes == AllBack(s, p, i)
  }

  lemma PartlySkip(s: Sys, s1: Sys, p: int, i: nat)
    requires Partly(s, s1, p, i) && i < NVMA && VmaOk(s1.procs[p].space.vmas[i]) && !s1.procs[p].space.vmas[i].used
    ensures Partly(s, s1, p, i + 1)
  {
    var vmas, j := s.procs[p].space.vmas, i + 1;
    forall x ensures Clear(vmas, j, x) <==> Clear(vmas, i, x) {}
  }

  /** Page tables that agree on a range are written back alike. */
  lemma {:induction false} SameBack(c: seq<int>, pt: map<int, Page>, pt': map<int, Page>, v: Vma, addr: int, n: nat)
    requires PagesOk(pt) && PagesOk(pt')
    requires forall k :: 0 <= k < n ==> (PageAt(addr, k) in pt <==> PageAt(addr, k) in pt')
    requires forall k :: 0 <= k < n && PageAt(addr, k) in pt ==> pt[PageAt(addr, k)] == pt'[PageAt(addr, k)]
    ensures WriteBack(c, pt, v, addr, n) == WriteBack(c, pt', v, addr, n)
  {
    if n > 0 { SameBack(c, pt, pt', v, addr, n - 1); }
  }

  lemma RidNext(vmas: seq<Vma>, i: nat, pt: map<int, Page>, pt1: map<int, Page>)
    requires VmasOk(vmas) && i < NVMA && vmas[i].used && Rid(vmas, i, pt, pt1)
    ensures Rid(vmas, i + 1, pt, Without(pt1, vmas[i].addr, vmas[i].addr + vmas[i].length))
  {
    var j := i + 1;
    forall x ensures Clear(vmas, j, x) <==> Clear(vmas, i, x) && !Within(vmas[i], x) {}
  }

  /** The earlier regions had no page of region i. */
  lemma RidOwn(vmas: seq<Vma>, i: nat, pt: map<int, Page>, pt1: map<int, Page>, c: seq<int>, n: nat)
    requires VmasOk(vmas) && i < NVMA && vmas[i].used && Rid(vmas, i, pt, pt1) && PagesOk(pt) && PagesOk(pt1)
    requires PageAt(vmas[i].addr, n) == vmas[i].addr + vmas[i].length
    ensures WriteBack(c, pt1, vmas[i], vmas[i].addr, n) == WriteBack(c, pt, vmas[i], vmas[i].addr, n)
  {
    var addr := vmas[i].addr;
    forall k | 0 <= k < n ensures Clear(vmas, i, PageAt(addr, k)) {
      assert Within(vmas[i], PageAt(addr, k));
      forall j | 0 <= j < i ensures !Within(vmas[j], PageAt(addr, k)) { assert Apart(vmas[j], vmas[i]); }
    }
    SameBack(c, pt1, pt, vmas[i], addr, n);
  }

  lemma PartlyNext(s: Sys, s1: Sys, s2: Sys, p: int, i: nat, r: int)
    requires Partly(s, s1, p, i) && i < NVMA && VmasOk(s.procs[p].space.vmas) && s1.procs[p].space.vmas[i].used
    requires var v := s1.procs[p].space.vmas[i]; Gone(s1, s2, p, i, v.addr, v.addr + v.length, r)
    ensures Partly(s, s2, p, i + 1)
  {
    var vmas := s.procs[p].space.vmas;
    var v := vmas[i];
    assert VmaOk(v);
    PagesExact(v.addr, v.addr + v.length);
    var ino := s.files[v.file].ino;
    RidNext(vmas, i, s.procs[p].space.pt, s1.procs[p].space.pt);
    RidOwn(vmas, i, s.procs[p].space.pt, s1.procs[p].space.pt, s1.inodes[ino], Pages(v.addr, v.addr + v.length));
  }

  lemma AllGone(s: Sys, s1: Sys, p: int)
    requires Partly(s, s1, p, NVMA)
    ensures s1.procs[p].space == Bare(s.procs[p].space)
  {
    var a, b := s1.procs[p].space, Bare(s.procs[p].space);
    assert a.vmas == b.vmas;
    forall x ensures (x in a.pt <==> x in b.pt) && (x in a.pt ==> a.pt[x] == b.pt[x]) {
      assert Clear(s.procs[p].space.vmas, NVMA, x) <==> !Vmas.Mapped(s.procs[p].space.vmas, x);
    }
    assert a.pt == b.pt;
  }

  /** Only the regions and pages of process p differ. */
  ghost predicate OnlySpace(procs: seq<Proc>, procs': seq<Proc>, p: int) {
    && |procs'| == |procs| && 0 <= p < |procs|
    && (forall q :: 0 <= q < |procs| && q != p ==> procs'[q] == procs[q])
    && procs'[p].ofile == procs[p].ofile && procs'[p].space.sz == procs[p].space.sz
  }
}
