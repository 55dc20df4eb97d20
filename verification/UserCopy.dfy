/** copyout, copyin and copyinstr of kernel/vm.c: moving bytes between the kernel and a
    user's virtual memory, page by page.

    frame maps each page that walkaddr can translate (valid, user-accessible, below
    MAXVA) to its physical page; different pages have different frames (PageFree.NoSharing). */
module UserCopy {
  import opened Machine

  const NUL := 0

  ghost predicate Ok(mem: seq<seq<int>>, frame: map<int, int>) {
    && (forall f :: 0 <= f < |mem| ==> |mem[f]| == PGSIZE)
    && (forall v :: v in frame ==> 0 <= v * PGSIZE < MAXVA && 0 < frame[v] < |mem|)
    && (forall v, w :: v in frame && w in frame && v != w ==> frame[v] != frame[w])
  }

  /** Page v has a byte of [a, a + n). */
  predicate Touches(v: int, a: int, n: int) { v * PGSIZE < a + n && a < v * PGSIZE + PGSIZE && 0 < n }

  ghost predicate AllMapped(frame: map<int, int>, a: int, n: int) { forall v :: Touches(v, a, n) ==> v in frame }

  /** Byte o of page v is the byte of src that belongs there, if it is in [a, a + n), and else what it was. */
  ghost predicate ByteIs(mem0: seq<seq<int>>, mem: seq<seq<int>>, frame: map<int, int>, a: int, src: seq<int>, n: int, v: int, o: int)
    requires Ok(mem0, frame) && Ok(mem, frame) && v in frame && 0 <= o < PGSIZE && 0 <= n <= |src| && |mem| == |mem0|
  {
    var x := v * PGSIZE + o;
    mem[frame[v]][o] == if a <= x < a + n then src[x - a] else mem0[frame[v]][o]
  }

  /** The user's memory after the first n bytes of src were stored at a; nothing else in memory changed. */
  ghost predicate Stored(mem0: seq<seq<int>>, mem: seq<seq<int>>, frame: map<int, int>, a: int, src: seq<int>, n: int) {
    && Ok(mem0, frame) && Ok(mem, frame) && |mem| == |mem0| && 0 <= n <= |src|
    && (forall v, o :: v in frame && 0 <= o < PGSIZE ==> ByteIs(mem0, mem, frame, a, src, n, v, o))
    && (forall f :: 0 <= f < |mem| && f !in frame.Values ==> mem[f] == mem0[f])
  }

  function Put(page: seq<int>, o: int, part: seq<int>): (r: seq<int>)
    requires 0 <= o && o + |part| <= |page|
    ensures |r| == |page| && forall k :: 0 <= k < |page| ==> r[k] == if o <= k < o + |part| then part[k - o] else page[k]
  { page[..o] + part + page[o + |part|..] }

  lemma PutOk(mem: seq<seq<int>>, frame: map<int, int>, v: int, page: seq<int>)
    requires Ok(mem, frame) && v in frame && |page| == PGSIZE
    ensures Ok(mem[frame[v] := page], frame)
  {}

  lemma StoredNext(mem0: seq<seq<int>>, mem: seq<seq<int>>, frame: map<int, int>, a: int, src: seq<int>, n: int, v: int, o: int, m: int)
    requires Stored(mem0, mem, frame, a, src, n) && v in frame && 0 <= o && 0 < m && o + m <= PGSIZE && n + m <= |src| && v * PGSIZE + o == a + n
    ensures Stored(mem0, mem[frame[v] := Put(mem[frame[v]], o, src[n..n + m])], frame, a, src, n + m)
  {
    var f, part := frame[v], src[n..n + m];
    var mem', t := mem[f := Put(mem[f], o, part)], n + m;
    PutOk(mem, frame, v, Put(mem[f], o, part));
    forall w, k | w in frame && 0 <= k < PGSIZE ensures ByteIs(mem0, mem', frame, a, src, t, w, k) {
      assert ByteIs(mem0, mem, frame, a, src, n, w, k);
    }
    assert f in frame.Values;
  }

  /** The n bytes at virtual address a. */
  ghost predicate Shows(mem: seq<seq<int>>, frame: map<int, int>, a: int, s: seq<int>) {
    && Ok(mem, frame)
    && forall v, o :: v in frame && 0 <= o < PGSIZE && a <= v * PGSIZE + o < a + |s| ==> mem[frame[v]][o] == s[v * PGSIZE + o - a]
  }

  lemma ShowsNext(mem: seq<seq<int>>, frame: map<int, int>, a: int, s: seq<int>, v: int, o: int, m: int)
    requires Shows(mem, frame, a, s) && v in frame && 0 <= o && 0 < m && o + m <= PGSIZE && v * PGSIZE + o == a + |s|
    ensures Shows(mem, frame, a, s + mem[frame[v]][o..o + m])
  {
    var t := s + mem[frame[v]][o..o + m];
    forall w, k | w in frame && 0 <= k < PGSIZE && a <= w * PGSIZE + k < a + |t| ensures mem[frame[w]][k] == t[w * PGSIZE + k - a] {
      if w == v { assert k >= o ==> t[|s| + (k - o)] == mem[frame[v]][o..o + m][k - o]; }
    }
  }

  /** What copyout stored, copyin finds. */
  lemma StoredShows(mem0: seq<seq<int>>, mem: seq<seq<int>>, frame: map<int, int>, a: int, src: seq<int>)
    requires Stored(mem0, mem, frame, a, src, |src|)
    ensures Shows(mem, frame, a, src)
  {
    forall v, o | v in frame && 0 <= o < PGSIZE && a <= v * PGSIZE + o < a + |src| ensures mem[frame[v]][o] == src[v * PGSIZE + o - a] {
      assert ByteIs(mem0, mem, frame, a, src, |src|, v, o);
    }
  }

  /** Where every page is mapped, the bytes at an address are determined. */
  lemma ShowsUnique(mem: seq<seq<int>>, frame: map<int, int>, a: int, s: seq<int>, t: seq<int>)
    requires Shows(mem, frame, a, s) && Shows(mem, frame, a, t) && |s| == |t| && AllMapped(frame, a, |s|)
    ensures s == t
  {
    forall i | 0 <= i < |s| ensures s[i] == t[i] {
      var v, o := (a + i) / PGSIZE, (a + i) % PGSIZE;
      assert Touches(v, a, |s|) && v * PGSIZE + o - a == i;
      assert v in frame && mem[frame[v]][o] == s[v * PGSIZE + o - a] == t[v * PGSIZE + o - a];
    }
  }

  /** part is what the page of address a has from there on. */
  ghost predicate PageShows(mem: seq<seq<int>>, frame: map<int, int>, a: int, part: seq<int>) {
    && Ok(mem, frame) && 0 <= a && a / PGSIZE in frame && 0 < |part| && a % PGSIZE + |part| <= PGSIZE
    && part == mem[frame[a / PGSIZE]][a % PGSIZE..a % PGSIZE + |part|]
  }

  lemma Longer(mem: seq<seq<int>>, frame: map<int, int>, a: int, s: seq<int>, part: seq<int>)
    requires Shows(mem, frame, a, s) && AllMapped(frame, a, |s|) && PageShows(mem, frame, a + |s|, part)
    ensures Shows(mem, frame, a, s + part) && AllMapped(frame, a, |s + part|)
  {
    var x := a + |s|;
    ShowsNext(mem, frame, a, s, x / PGSIZE, x % PGSIZE, |part|);
    MappedNext(frame, a, |s|, x / PGSIZE, x % PGSIZE, |part|);
  }

  class UserMemory {
    var mem: seq<seq<int>>
    const frame: map<int, int>

    ghost predicate Valid()
      reads this
    { Ok(mem, frame) }

    constructor (mem: seq<seq<int>>, frame: map<int, int>)
      requires Ok(mem, frame)
      ensures Valid() && this.mem == mem && this.frame == frame
    {
      this.mem, this.frame := mem, frame;
    }

    /** walkaddr of a page-aligned address, as a page number; 0 if there is no translation. */
    method Walkaddr(va: int) returns (pa: int)
      requires Valid() && 0 <= va && va % PGSIZE == 0
      ensures pa == if va / PGSIZE in frame then frame[va / PGSIZE] else 0
    {
      ghost var v := va / PGSIZE;
      assert v in frame ==> v * PGSIZE < MAXVA;
      if va >= MAXVA { return 0; }
      pa := if va / PGSIZE in frame then frame[va / PGSIZE] else 0;
    }

    /** One turn of copyout's loop: stores in the page at dstva what it can take of the last len bytes of src, or
        returns 0. */
    method StorePart(dstva: int, src: seq<int>, len: int, ghost mem0: seq<seq<int>>, ghost a: int) returns (m: int)
      requires 0 < len <= |src| && 0 <= dstva == a + (|src| - len)
      requires Stored(mem0, mem, frame, a, src, |src| - len) && AllMapped(frame, a, |src| - len)
      modifies this
      ensures m == 0 <==> dstva / PGSIZE !in frame
      ensures m == 0 ==> mem == old(mem)
      ensures m != 0 ==> 0 < m <= len && (m == len || dstva + m == dstva / PGSIZE * PGSIZE + PGSIZE)
      ensures Stored(mem0, mem, frame, a, src, |src| - len + m) && AllMapped(frame, a, |src| - len + m)
    {
      var va0 := dstva / PGSIZE * PGSIZE;
      var pa0 := Walkaddr(va0);
      if pa0 == 0 { return 0; }
      m := PGSIZE - (dstva - va0);
      if m > len { m := len; }
      ghost var n := |src| - len;
      StoredNext(mem0, mem, frame, a, src, n, dstva / PGSIZE, dstva - va0, m);
      MappedNext(frame, a, n, dstva / PGSIZE, dstva - va0, m);
      mem := mem[pa0 := Put(mem[pa0], dstva - va0, src[|src| - len..|src| - len + m])];
    }

    /** 0 if the whole range is mapped; otherwise -1, with the mapped pages before the first gap stored. */
    method Copyout(dstva0: int, src: seq<int>) returns (r: int, ghost n: int)
      requires Valid() && 0 <= dstva0
      modifies this
      ensures Stored(old(mem), mem, frame, dstva0, src, n) && AllMapped(frame, dstva0, n)
      ensures r == 0 <==> AllMapped(frame, dstva0, |src|)
      ensures r == 0 ==> n == |src|
      ensures r != 0 ==> r == -1 && (n == 0 || (dstva0 + n) % PGSIZE == 0) && (dstva0 + n) / PGSIZE !in frame
    {
      var dstva, len := dstva0, |src|;
      n := 0;
      while len > 0
        invariant 0 <= n && len == |src| - n && len >= 0 && dstva >= 0 && (len > 0 ==> dstva == dstva0 + n)
        invariant Stored(old(mem), mem, frame, dstva0, src, n) && AllMapped(frame, dstva0, n)
        invariant n == 0 || len == 0 || dstva % PGSIZE == 0
      {
        var m := StorePart(dstva, src, len, old(mem), dstva0);
        if m == 0 {
          assert Touches(dstva / PGSIZE, dstva0, |src|);
          return -1, n;
        }
        len := len - m;
        n := n + m;
        dstva := dstva / PGSIZE * PGSIZE + PGSIZE;
      }
      return 0, n;
    }

    /** 0 and the bytes of the range if all of it is mapped, else -1. */
    method Copyin(srcva0: int, len0: nat) returns (r: int, dst: seq<int>)
      requires Valid() && 0 <= srcva0
      ensures Shows(mem, frame, srcva0, dst) && |dst| <= len0
      ensures r == 0 <==> AllMapped(frame, srcva0, len0)
      ensures r == 0 ==> |dst| == len0
      ensures r != 0 ==> r == -1
    {
      var srcva, len := srcva0, len0;
      dst := [];
      while len > 0
        invariant 0 <= len && |dst| == len0 - len && srcva >= 0 && (len > 0 ==> srcva == srcva0 + |dst|)
        invariant Shows(mem, frame, srcva0, dst) && AllMapped(frame, srcva0, |dst|)
      {
        var va0 := srcva / PGSIZE * PGSIZE;
        var pa0 := Walkaddr(va0);
        ghost var v := srcva / PGSIZE;
        if pa0 == 0 {
          assert Touches(v, srcva0, len0);
          return -1, dst;
        }
        var m := PGSIZE - (srcva - va0);
        if m > len { m := len; }
        ShowsNext(mem, frame, srcva0, dst, v, srcva - va0, m);
        MappedNext(frame, srcva0, |dst|, v, srcva - va0, m);
        dst := dst + mem[pa0][srcva - va0..srcva - va0 + m];
        len := len - m;
        srcva := va0 + PGSIZE;
      }
      return 0, dst;
    }

    /** One turn of copyinstr's loop: what the page at srcva has of the string. */
    method StringPart(srcva: int, max: nat) returns (ok: bool, part: seq<int>, gotNull: bool)
      requires Valid() && 0 <= srcva && max > 0
      ensures ok <==> srcva / PGSIZE in frame
      ensures !ok ==> !gotNull
      ensures ok ==> PageShows(mem, frame, srcva, part) && |part| <= max && (forall i :: 0 <= i < |part| - (if gotNull then 1 else 0) ==> part[i] != NUL)
      ensures ok && gotNull ==> part[|part| - 1] == NUL
      ensures ok && !gotNull ==> |part| == max || srcva + |part| == srcva / PGSIZE * PGSIZE + PGSIZE
    {
      var va0 := srcva / PGSIZE * PGSIZE;
      var pa0 := Walkaddr(va0);
      if pa0 == 0 { return false, [], false; }
      var n := PGSIZE - (srcva - va0);
      if n > max { n := max; }
      part, gotNull := Scan(mem[pa0][srcva - va0..srcva - va0 + n]);
      assert part == mem[pa0][srcva - va0..srcva - va0 + |part|];
      ok := true;
    }

    /** copyinstr: 0 and the string if its NUL comes within max bytes and before any gap, else -1. */
    method Copyinstr(srcva0: int, max0: nat) returns (r: int, dst: seq<int>)
      requires Valid() && 0 <= srcva0
      ensures (forall i :: 0 <= i < |dst| - (if r == 0 then 1 else 0) ==> dst[i] != NUL) && |dst| <= max0
      ensures Shows(mem, frame, srcva0, dst) && AllMapped(frame, srcva0, |dst|)
      ensures r == 0 ==> |dst| > 0 && dst[|dst| - 1] == NUL
      ensures r != 0 ==> r == -1 && (|dst| == max0 || (srcva0 + |dst|) / PGSIZE !in frame)
    {
      var srcva, max, gotNull := srcva0, max0, false;
      dst := [];
      while !gotNull && max > 0
        invariant 0 <= max && |dst| + max == max0 && srcva >= 0 && (!gotNull && max > 0 ==> srcva == srcva0 + |dst|)
        invariant forall i :: 0 <= i < |dst| - (if gotNull then 1 else 0) ==> dst[i] != NUL
        invariant Shows(mem, frame, srcva0, dst) && AllMapped(frame, srcva0, |dst|)
        invariant gotNull ==> |dst| > 0 && dst[|dst| - 1] == NUL
        decreases !gotNull, max
      {
        var ok, part;
        ok, part, gotNull := StringPart(srcva, max);
        if !ok { return -1, dst; }
        Longer(mem, frame, srcva0, dst, part);
        dst := dst + part;
        max := max - |part|;
        srcva := srcva / PGSIZE * PGSIZE + PGSIZE;
      }
      return if gotNull then 0 else -1, dst;
    }
  }

  /** copyinstr's inner loop: the bytes up to and including the first NUL. */
  method Scan(page: seq<int>) returns (part: seq<int>, gotNull: bool)
    requires page != []
    ensures 0 < |part| <= |page| && part == page[..|part|]
    ensures gotNull ==> part[|part| - 1] == NUL
    ensures forall i :: 0 <= i < |part| - (if gotNull then 1 else 0) ==> part[i] != NUL
    ensures !gotNull ==> part == page
  {
    part, gotNull := [], false;
    while |part| < |page|
      invariant |part| <= |page| && part == page[..|part|] && !gotNull && forall i :: 0 <= i < |part| ==> part[i] != NUL
    {
      if page[|part|] == NUL { return part + [NUL], true; }
      part := part + [page[|part|]];
    }
  }

  lemma MappedNext(frame: map<int, int>, a: int, n: int, v: int, o: int, m: int)
    requires AllMapped(frame, a, n) && 0 <= n && v in frame && 0 <= o && 0 < m && o + m <= PGSIZE && v * PGSIZE + o == a + n
    ensures AllMapped(frame, a, n + m)
  {
    forall w | Touches(w, a, n + m) ensures w in frame {
      if !Touches(w, a, n) { assert w == v; }
    }
  }

  /** A copyout that succeeds, read back by copyin. */
  method RoundTrip(u: UserMemory, a: int, src: seq<int>) returns (r: int, dst: seq<int>)
    requires u.Valid() && 0 <= a
    modifies u
    ensures AllMapped(u.frame, a, |src|) ==> r == 0 && dst == src
  {
    ghost var n;
    r, n := u.Copyout(a, src);
    r, dst := u.Copyin(a, |src|);
    if r == 0 {
      StoredShows(old(u.mem), u.mem, u.frame, a, src);
      ShowsUnique(u.mem, u.frame, a, src, dst);
    }
  }
}
