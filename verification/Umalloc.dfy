/** malloc, free and morecore of user/umalloc.c. */
module Umalloc {
  import opened HeapBlocks
  import opened Machine

  const HEADER := 16            // sizeof(Header)
  const NULL := -1
  const INT_MAX := 0x7fff_ffff

  /** Units for a request of nbytes, the header included. */
  function Units(nbytes: nat): (n: int)
    ensures n >= 1 && (n - 1) * HEADER >= nbytes && (n - 1) * HEADER < nbytes + HEADER
  { (nbytes + HEADER - 1) / HEADER + 1 }

  /** morecore asks for at least 4096 units. */
  function Request(nu: int): (r: int)
    ensures r >= nu && r >= 4096 && (r == nu || r == 4096)
  { if nu < 4096 then 4096 else nu }

  /** The bytes that malloc asks sbrk for. */
  function Bytes(nbytes: nat): int { Request(Units(nbytes)) * HEADER }

  /** sbrk's argument is an int: the bytes asked for, from the old break on, lie below the new one if and only if
      their number fits an int and the size of the process stays below 2^32. */
  lemma SbrkExact(brk: nat, bytes: nat)
    requires brk < TWO32 && 0 < bytes <= TWO32 + HEADER
    ensures NewSize(brk, Int32(bytes)) >= brk + bytes <==> bytes <= INT_MAX && brk + bytes < TWO32
  {}

  lemma EndsAt(brk: nat, nu: nat)
    requires brk % HEADER == 0
    ensures (brk / HEADER + nu) * HEADER == brk + nu * HEADER
  {}

  /** How a malloc ends: with a block, with NULL, or killed at the header that morecore writes. */
  datatype End = Got | Null | Faults

  class Allocator {
    var ptr: seq<int>
    var size: seq<int>
    var freep: int
    ghost var own: seq<int>
    ghost var isFree: seq<bool>

    ghost function M(): Heap
      reads this
    { Heap(ptr, size, own, isFree) }

    /** The heap, base being set up by the first malloc. */
    ghost function H(): Heap
      reads this
    { if freep == NULL && |ptr| > 0 && |size| > 0 then Heap(ptr[BASE := BASE], size[BASE := 0], own, isFree) else M() }

    ghost predicate Valid()
      reads this
    {
      && Wf(H())
      && (freep == NULL ==> forall u :: 0 <= u < |own| && own[u] != NONE ==> u == BASE)
      && (freep != NULL ==> Unit(M(), freep) && isFree[freep])
    }

    constructor (top: nat)
      requires top > 0
      ensures Valid() && freep == NULL && |own| == top
    {
      ptr, size := seq(top, _ => 0), seq(top, _ => 0);
      freep := NULL;
      own := seq(top, i => if i == BASE then BASE else NONE);
      isFree := seq(top, i => i == BASE);
      new;
      var h := H();
      assert forall u :: 0 <= u < top ==> UnitOk(h, u) && LinkOk(h, u) && Apart(h, u);
    }

    /** free's loop. */
    method Search(bp: int) returns (p: int)
      requires Valid() && freep != NULL && Live(M(), bp)
      ensures Slot(M(), p, bp)
    {
      ghost var h := M();
      ghost var t := Previous(h, bp);
      assert UnitOk(h, bp) && UnitOk(h, BASE);
      p := freep;
      assert LinkOk(h, p);
      while !(bp > p && bp < ptr[p])
        invariant Unit(h, p) && isFree[p] && Unit(h, ptr[p])
        decreases Distance(p, t, |own|)
      {
        assert LinkOk(h, p);
        if p >= ptr[p] && (bp > p || bp < ptr[p]) { break; }
        Closer(h, p, t);
        p := ptr[p];
        assert LinkOk(h, p);
      }
      assert LinkOk(h, p);
    }

    /** The list and the sizes once free has found p. */
    method Relink(p: int, bp: int)
      requires Sized(M()) && Unit(M(), p) && Unit(M(), bp) && Unit(M(), ptr[p])
      requires p != bp && ptr[p] != bp && (bp + size[bp] == ptr[p] ==> ptr[p] != p)
      modifies this
      ensures M() == Freed(old(M()), p, bp) && freep == p
    {
      ghost var h := M();
      if bp + size[bp] == ptr[p] {
        size := size[bp := size[bp] + size[ptr[p]]];
        ptr := ptr[bp := ptr[ptr[p]]];
      } else {
        ptr := ptr[bp := ptr[p]];
      }
      if p + size[p] == bp {
        size := size[p := size[p] + size[bp]];
        ptr := ptr[p := ptr[bp]];
      } else {
        ptr := ptr[p := bp];
      }
      freep := p;
      own, isFree := Freed(h, p, bp).own, Freed(h, p, bp).isFree;
    }

    /** Block ap - 1 goes back. */
    method Free(ap: int)
      requires Valid() && Live(M(), ap - 1)
      modifies this
      ensures Valid() && freep != NULL && Given(old(M()), M(), ap - 1)
      ensures Slot(old(M()), freep, ap - 1) && Unit(old(M()), old(ptr)[freep]) && M() == Freed(old(M()), freep, ap - 1)
    {
      assert UnitOk(H(), ap - 1);
      var p := Search(ap - 1);
      FreedOk(M(), p, ap - 1);
      assert LinkOk(M(), p) && UnitOk(M(), ap - 1);
      Relink(p, ap - 1);
    }

    /** sbrk's new memory, and its header. */
    method Extend(at: int, nu: int)
      requires Sized(M()) && at >= |ptr| && 0 < nu
      modifies `ptr, `size, `own, `isFree
      ensures M() == Extended(old(M()), at, nu)
    {
      ghost var h := M();
      var add := at + nu - |ptr|;
      ptr := ptr + seq(add, _ => 0);
      size := (size + seq(add, _ => 0))[at := nu];
      own, isFree := Extended(h, at, nu).own, Extended(h, at, nu).isFree;
    }

    /** sbrk at break brk.  Where the size of the process does not grow it cannot fail. */
    static method Sbrk(brk: nat, n: int, granted: bool) returns (ok: bool, brk': int)
      requires brk < TWO32
      ensures ok <==> granted || NewSize(brk, n) <= brk
      ensures brk' == if ok then NewSize(brk, n) else brk
    {
      ok := granted || NewSize(brk, n) <= brk;
      brk' := if ok then NewSize(brk, n) else brk;
    }

    /** The allocator believes that it has the memory it asked for; whether the block that it frees lies
        below the new break is what SbrkExact says. */
    method Morecore(nu0: int, brk: nat, granted: bool) returns (end: End, r: int, brk': int)
      requires Valid() && freep != NULL && 0 < nu0 && Request(nu0) * HEADER <= TWO32 + HEADER
      requires brk < TWO32 && brk % HEADER == 0 && |ptr| * HEADER <= brk
      modifies this
      ensures Valid() && freep != NULL
      ensures end == Null <==> !granted && NewSize(brk, Int32(Request(nu0) * HEADER)) > brk
      ensures brk' == if end == Null then brk else NewSize(brk, Int32(Request(nu0) * HEADER))
      ensures end == Faults <==> end != Null && brk' < brk + HEADER
      ensures end != Got ==> r == NULL && M() == old(M()) && freep == old(freep)
      ensures end == Got ==> r == freep && Grown(old(M()), M(), brk / HEADER, Request(nu0)) && Unit(M(), ptr[r])
      ensures end == Got ==> size[r] >= nu0 || size[ptr[r]] >= nu0
    {
      var nu := Request(nu0);
      var ok;
      ok, brk' := Sbrk(brk, Int32(nu * HEADER), granted);
      if !ok { return Null, NULL, brk'; }
      if brk' < brk + HEADER { return Faults, NULL, brk'; }
      AddCore(brk / HEADER, nu);
      end, r := Got, freep;
    }

    /** morecore's new block of nu units at unit `at` is freed. */
    method AddCore(at: int, nu: int)
      requires Valid() && freep != NULL && at >= |ptr| && 0 < nu
      modifies this
      ensures Valid() && freep != NULL && Grown(old(M()), M(), at, nu) && Unit(M(), ptr[freep])
      ensures size[freep] >= nu || size[ptr[freep]] >= nu
    {
      ghost var h := M();
      ExtendedOk(h, at, nu);
      Extend(at, nu);
      Free(at + 1);
      GrownOk(h, at, nu, freep);
    }

    /** A block of Units(nbytes) units.  brk is the break, granted says whether the kernel has the memory for
        sbrk, and h1 is the heap from which the block is taken.  sbrk is called exactly if no free block is large
        enough, and the heap then stays below the break exactly if the request fits an int and the process stays
        below 2^32 bytes. */
    method Malloc(nbytes: nat, brk: nat, granted: bool) returns (end: End, r: int, calls: int, brk': int, ghost h1: Heap)
      requires Valid() && nbytes < TWO32 && brk < TWO32 && brk % HEADER == 0 && |ptr| * HEADER <= brk
      modifies this
      ensures Valid() && 0 <= calls <= 1 && Wf(h1) && Sized(old(H()))
      ensures calls == 1 <==> NoFit(old(H()), Units(nbytes))
      ensures calls == 0 ==> end == Got && h1 == old(H()) && brk' == brk
      ensures calls == 1 ==> (end == Null <==> !granted && NewSize(brk, Int32(Bytes(nbytes))) > brk)
      ensures calls == 1 ==> brk' == if end == Null then brk else NewSize(brk, Int32(Bytes(nbytes)))
      ensures calls == 1 ==> (end == Faults <==> end != Null && brk' < brk + HEADER)
      ensures calls == 1 && end == Got ==> Grown(old(H()), h1, brk / HEADER, Request(Units(nbytes)))
      ensures calls == 1 && end != Null ==>
                (end == Got && |ptr| * HEADER <= brk' <==> Bytes(nbytes) <= INT_MAX && brk + Bytes(nbytes) < TWO32)
      ensures end != Got ==> r == NULL && M() == h1 == old(H())
      ensures end == Got ==> r != NULL && Taken(h1, M(), r - 1, Units(nbytes))
    {
      var nunits := Units(nbytes);
      calls, brk', h1 := 0, brk, H();
      assert UnitOk(h1, BASE);
      if freep == NULL {
        freep := BASE;
        ptr := ptr[BASE := BASE];
        size := size[BASE := 0];
      }
      assert M() == h1;
      var found, prevp, p := FirstLap(nunits);
      if found {
        r := Take(prevp, p, nunits);
        end := Got;
        return;
      }
      calls := 1;
      EndsAt(brk, Request(nunits));
      SbrkExact(brk, Bytes(nbytes));
      end, p, brk' := Morecore(nunits, brk, granted);
      if end != Got { return end, NULL, calls, brk', h1; }
      h1 := M();
      r := Again(p, nunits);
    }

    /** malloc's loop once around the list: it ends at a block of n units, or back at freep. */
    method FirstLap(n: int) returns (found: bool, prevp: int, p: int)
      requires Valid() && freep != NULL
      ensures found <==> !NoFit(M(), n)
      ensures Unit(M(), prevp) && isFree[prevp] && ptr[prevp] == p && Unit(M(), p) && isFree[p] && (found ==> size[p] >= n)
    {
      ghost var h := M();
      SearchStarts(h, freep, n);
      assert LinkOk(h, freep);
      prevp, p := freep, ptr[freep];
      while size[p] < n
        invariant Unit(h, prevp) && isFree[prevp] && ptr[prevp] == p && Unit(h, p) && isFree[p] && SmallBefore(h, freep, p, n)
        decreases Distance(p, freep, |own|)
      {
        if p == freep { return false, prevp, p; }
        Closer(h, p, freep);
        SearchGoesOn(h, freep, p, n);
        assert LinkOk(h, p);
        prevp, p := p, ptr[p];
      }
      found := true;
    }

    /** The turns of malloc's loop after morecore, which do not come to freep with a block too small: the block is
        freep's, or the one behind it. */
    method Again(p0: int, n: int) returns (r: int)
      requires Valid() && freep == p0 && p0 != NULL && 0 < n && Unit(M(), ptr[p0]) && (size[p0] >= n || size[ptr[p0]] >= n)
      modifies this
      ensures Valid() && r != NULL && Taken(old(M()), M(), r - 1, n) && |ptr| == |old(ptr)|
    {
      ghost var h := M();
      assert LinkOk(h, p0);
      var prevp, p := p0, ptr[p0];
      while size[p] < n
        invariant M() == h && freep == p0 && Unit(h, prevp) && isFree[prevp] && ptr[prevp] == p && Unit(h, p) && isFree[p]
        invariant size[p0] >= n || (p == ptr[p0] && size[p] >= n)
        decreases Distance(p, p0, |own|)
      {
        Closer(h, p, p0);
        assert LinkOk(h, p);
        prevp, p := p, ptr[p];
      }
      r := Take(prevp, p, n);
    }

    /** malloc's block of at least n units is p. */
    method Take(prevp: int, p0: int, n: int) returns (r: int)
      requires Valid() && freep != NULL && Unit(M(), prevp) && isFree[prevp] && ptr[prevp] == p0 && Unit(M(), p0) && isFree[p0]
      requires 0 < n <= size[p0]
      modifies this
      ensures Valid() && r != NULL && Taken(old(M()), M(), r - 1, n) && freep == prevp
    {
      ghost var h := M();
      var p := p0;
      assert UnitOk(h, p) && UnitOk(h, BASE);
      if size[p] == n {
        UnlinkedOk(h, prevp, p);
        ptr := ptr[prevp := ptr[p]];
        isFree := isFree[p := false];
        assert M() == Unlinked(h, prevp, p);
      } else {
        ghost var c := p + size[p] - n;
        CutOk(h, p, c, n);
        size := size[p := size[p] - n];
        p := p + size[p];
        size := size[p := n];
        own := Cut(h, p0, c, n).own;
        assert M() == Cut(h, p0, c, n);
      }
      freep := prevp;
      r := p + 1;
    }
  }

  /** A fresh program asks for 2^31 bytes: sbrk is asked to shrink, and morecore writes where there is no memory. */
  method TwoGigabytes(top: nat) returns (end: End)
    requires 0 < top && top * HEADER < 0x7000_0000
    ensures end == Faults
  {
    var a := new Allocator(top);
    ghost var h;
    var r, calls, brk;
    NothingFree(a.H());
    assert Int32(Bytes(0x8000_0000)) == HEADER - 0x8000_0000;
    end, r, calls, brk, h := a.Malloc(0x8000_0000, top * HEADER, true);
  }

  /** It asks for 2^32 - 1 bytes: sbrk adds 16, and malloc returns a block of more than 4 GiB in them. */
  method FourGigabytes(top: nat) returns (end: End, given: int, block: int)
    requires 0 < top && top * HEADER < 0x7000_0000
    ensures end == Got && given == HEADER && block * HEADER > TWO32
  {
    var a := new Allocator(top);
    ghost var h;
    var r, calls, brk;
    NothingFree(a.H());
    assert Int32(Bytes(0xffff_ffff)) == HEADER;
    end, r, calls, brk, h := a.Malloc(0xffff_ffff, top * HEADER, true);
    given, block := brk - top * HEADER, a.size[r - 1];
  }

  /** Before the first malloc there is only base. */
  lemma NothingFree(h: Heap)
    requires Wf(h) && forall u :: 0 <= u < |h.own| && h.own[u] != NONE ==> u == BASE
    ensures NoFit(h, 1)
  {
    assert UnitOk(h, BASE);
    forall w | 0 <= w < |h.own| && h.isFree[w] ensures h.size[w] < 1 { assert UnitOk(h, w); }
  }
}
