/** What a mapped file and its pages have to do with each other: reading a page on a
    fault, writing pages back when a shared region is unmapped. */
module MappedFiles {
  import opened Machine
  import opened Vmas
  import FileContents

  const MAXBYTES := 274432      // MAXFILE * BSIZE of kernel/fs.h

  function Max(a: int, b: int): int { if a > b then a else b }

  // ---------- readi and writei of one page ----------

  /** readi of PGSIZE bytes at off, a uint, into a zeroed page. */
  function ReadPage(c: seq<int>, off: int): (r: seq<int>)
    requires 0 <= off < TWO32
    ensures |r| == PGSIZE
  {
    var n := if off > |c| || (off + PGSIZE) % TWO32 < off then 0 else if off + PGSIZE > |c| then |c| - off else PGSIZE;
    (if n == 0 then [] else c[off..off + n]) + seq(PGSIZE - n, _ => 0)
  }

  /** The file's bytes from off on, padded with zeros. */
  predicate Shows(r: seq<int>, c: seq<int>, off: int)
    requires |r| == PGSIZE && 0 <= off
  {
    forall k :: 0 <= k < PGSIZE ==> r[k] == if off + k < |c| then c[off + k] else 0
  }

  lemma ReadPageShows(c: seq<int>, off: int)
    requires 0 <= off < TWO32 && |c| <= MAXBYTES
    ensures Shows(ReadPage(c, off), c, off)
  {}

  /** The offset that readi and writei get: their argument is a uint. */
  function Uint(off: int): int { off % TWO32 }

  predicate Blank(c: seq<int>, off: int)
    requires 0 <= off
  { forall k :: off <= k < off + PGSIZE && k < |c| ==> c[k] == 0 }

  /** A page at a file offset of 2^32 or more shows the file at the offset cut to 32 bits, so it is
      right exactly if that part of the file is blank. */
  lemma FaultExact(c: seq<int>, off: int)
    requires 0 <= off && |c| <= MAXBYTES
    ensures Shows(ReadPage(c, Uint(off)), c, off) <==> off < TWO32 || Blank(c, Uint(off))
  {
    var u, r := Uint(off), ReadPage(c, Uint(off));
    ReadPageShows(c, u);
    if off >= TWO32 {
      if Shows(r, c, off) {
        forall k | u <= k < u + PGSIZE && k < |c| ensures c[k] == 0 { assert r[k - u] == c[u + (k - u)]; }
      }
      if Blank(c, u) {
        forall k | 0 <= k < PGSIZE ensures r[k] == 0 { assert r[k] == if u + k < |c| then c[u + k] else 0; }
      }
    }
  }

  /** One byte at the start of a file shows up again 4 GiB further on. */
  lemma FaultWraps()
    ensures !Shows(ReadPage([1], Uint(TWO32)), [1], TWO32)
  {
    assert ReadPage([1], Uint(TWO32))[0] == 1;
  }

  predicate CanWrite(c: seq<int>, off: int) { 0 <= off <= |c| && off + PGSIZE <= MAXBYTES }

  /** writei of one page, which fails beyond the end of the file and beyond the largest file. */
  function WritePage(c: seq<int>, off: int, bytes: seq<int>): (r: seq<int>)
    requires |bytes| == PGSIZE
    ensures |r| >= |c|
  { if CanWrite(c, off) then FileContents.Splice(c, off, bytes) else c }

  /** writei gets the offset cut to 32 bits, so from 2^32 on, where no file reaches, a page must not be
      written at all: it is not exactly if writei refuses the cut offset too, or the page's bytes are
      there already. */
  lemma PutBackExact(c: seq<int>, off: int, bytes: seq<int>)
    requires 0 <= off && |bytes| == PGSIZE && |c| <= MAXBYTES
    ensures WritePage(c, Uint(off), bytes) == WritePage(c, off, bytes) <==>
              off < TWO32 || !CanWrite(c, Uint(off)) || Holds(c, Uint(off), bytes)
  {
    var u := Uint(off);
    if off >= TWO32 && CanWrite(c, u) {
      var r := WritePage(c, u, bytes);
      AtOffset(c, u, bytes);
      if Holds(c, u, bytes) {
        assert |r| == |c|;
        forall k | 0 <= k < |c| ensures r[k] == c[k] {
          if u <= k < u + PGSIZE { assert c[u + (k - u)] == bytes[k - u]; }
        }
      }
    }
  }

  // ---------- writing back ----------

  /** Every page of region v is PGSIZE bytes. */
  ghost predicate PagesOk(pt: map<int, Page>) { forall x :: x in pt ==> |pt[x].bytes| == PGSIZE }

  predicate Dirty(v: Vma) { v.shared && v.prot.w }

  /** Address of page k of a range that starts at addr. */
  function PageAt(addr: int, k: int): int { addr + k * PGSIZE }

  /** The file after the first n pages from addr on, in this order, were written back. */
  ghost function WriteBack(c: seq<int>, pt: map<int, Page>, v: Vma, addr: int, n: nat): (r: seq<int>)
    requires PagesOk(pt)
    ensures |r| >= |c|
  {
    if n == 0 then c
    else
      var c1 := WriteBack(c, pt, v, addr, n - 1);
      var va := PageAt(addr, n - 1);
      if va in pt && Dirty(v) then WritePage(c1, Uint(Offset(v, va)), pt[va].bytes) else c1
  }

  /** Private and read-only regions leave the file alone. */
  lemma {:induction false} CleanKeeps(c: seq<int>, pt: map<int, Page>, v: Vma, addr: int, n: nat)
    requires PagesOk(pt) && !(v.shared && v.prot.w)
    ensures WriteBack(c, pt, v, addr, n) == c
  {
    if n > 0 { CleanKeeps(c, pt, v, addr, n - 1); }
  }

  lemma {:induction false} StaysSmall(c: seq<int>, pt: map<int, Page>, v: Vma, addr: int, n: nat)
    requires PagesOk(pt) && |c| <= MAXBYTES
    ensures |WriteBack(c, pt, v, addr, n)| <= MAXBYTES
  {
    if n > 0 { StaysSmall(c, pt, v, addr, n - 1); }
  }

  lemma UintSmall(off: int)
    requires 0 <= off < TWO32
    ensures Uint(off) == off
  {}

  /** Page k's bytes go where x is. */
  ghost predicate Covers(pt: map<int, Page>, v: Vma, addr: int, k: int, x: int) {
    PageAt(addr, k) in pt && Uint(Offset(v, PageAt(addr, k))) <= x < Uint(Offset(v, PageAt(addr, k))) + PGSIZE
  }

  /** A byte that no resident page covers stays. */
  lemma {:induction false} OthersKept(c: seq<int>, pt: map<int, Page>, v: Vma, addr: int, n: nat, x: int)
    requires PagesOk(pt) && 0 <= x < |c| && forall k :: 0 <= k < n ==> !Covers(pt, v, addr, k, x)
    ensures WriteBack(c, pt, v, addr, n)[x] == c[x]
  {
    if n > 0 {
      OthersKept(c, pt, v, addr, n - 1, x);
      assert !Covers(pt, v, addr, n - 1, x);
    }
  }

  lemma {:induction false} NoneResident(c: seq<int>, pt: map<int, Page>, v: Vma, addr: int, n: nat)
    requires PagesOk(pt) && forall k :: 0 <= k < n ==> PageAt(addr, k) !in pt
    ensures WriteBack(c, pt, v, addr, n) == c
  {
    if n > 0 { NoneResident(c, pt, v, addr, n - 1); }
  }

  /** One resident page 4 GiB into any shared writable mapping overwrites the start of the file. */
  lemma PutBackWraps(c: seq<int>, pt: map<int, Page>, v: Vma, n: nat)
    requires PagesOk(pt) && v.shared && v.prot.w && v.off == 0 && n == TWO32 / PGSIZE && PageAt(v.addr, n) in pt
    requires forall k :: 0 <= k < n ==> PageAt(v.addr, k) !in pt
    ensures Holds(WriteBack(c, pt, v, v.addr, n + 1), 0, pt[PageAt(v.addr, n)].bytes)
  {
    NoneResident(c, pt, v, v.addr, n);
    CutTo0(v, n);
    AtOffset(c, 0, pt[PageAt(v.addr, n)].bytes);
  }

  lemma CutTo0(v: Vma, n: int)
    requires v.off == 0 && n == TWO32 / PGSIZE
    ensures Uint(Offset(v, PageAt(v.addr, n))) == 0
  {
    assert Offset(v, PageAt(v.addr, n)) == TWO32;
  }

  /** c has the given bytes at o. */
  predicate Holds(c: seq<int>, o: int, bytes: seq<int>) {
    0 <= o && o + |bytes| <= |c| && forall k :: 0 <= k < |bytes| ==> c[o + k] == bytes[k]
  }

  lemma AtOffset(c: seq<int>, o: int, bytes: seq<int>)
    requires |bytes| == PGSIZE && CanWrite(c, o)
    ensures Holds(WritePage(c, o, bytes), o, bytes)
  {}

  // ---------- which pages reach the file ----------

  /** Where writei puts page k: its offset cut to 32 bits. */
  function CutOff(v: Vma, addr: int, k: int): int { Uint(Offset(v, PageAt(addr, k))) }

  /** A page at u can be written to a file of this size. */
  predicate Fits(size: int, u: int) { 0 <= u <= size && u + PGSIZE <= MAXBYTES }

  /** The size of the file after the first n pages, from its size before and the resident pages alone. */
  ghost function SizeAfter(size: nat, pt: map<int, Page>, v: Vma, addr: int, n: nat): (r: nat)
    ensures r >= size
  {
    if n == 0 then size
    else
      var s := SizeAfter(size, pt, v, addr, n - 1);
      if PageAt(addr, n - 1) in pt && Dirty(v) && Fits(s, CutOff(v, addr, n - 1)) then Max(s, CutOff(v, addr, n - 1) + PGSIZE) else s
  }

  /** Page k is written when its turn comes. */
  ghost predicate Reaches(size: nat, pt: map<int, Page>, v: Vma, addr: int, k: nat) {
    PageAt(addr, k) in pt && Dirty(v) && Fits(SizeAfter(size, pt, v, addr, k), CutOff(v, addr, k))
  }

  lemma {:induction false} SizeExact(c: seq<int>, pt: map<int, Page>, v: Vma, addr: int, n: nat)
    requires PagesOk(pt)
    ensures |WriteBack(c, pt, v, addr, n)| == SizeAfter(|c|, pt, v, addr, n)
  {
    if n > 0 { SizeExact(c, pt, v, addr, n - 1); }
  }

  /** The last of the first n pages that is written at u, or -1. */
  ghost function LastAt(size: nat, pt: map<int, Page>, v: Vma, addr: int, n: nat, u: int): (j: int)
    ensures j == -1 || (0 <= j < n && Reaches(size, pt, v, addr, j) && CutOff(v, addr, j) == u)
    ensures forall i :: j < i < n && Reaches(size, pt, v, addr, i) ==> CutOff(v, addr, i) != u
  {
    if n == 0 then -1
    else if Reaches(size, pt, v, addr, n - 1) && CutOff(v, addr, n - 1) == u then n - 1
    else LastAt(size, pt, v, addr, n - 1, u)
  }

  lemma CutOffAligned(v: Vma, addr: int, k: int)
    requires Aligned(Offset(v, addr))
    ensures Aligned(CutOff(v, addr, k))
  {
    Multiple(k);
    AlignedSum(Offset(v, addr), k * PGSIZE);
    var o, q := Offset(v, PageAt(addr, k)), Offset(v, PageAt(addr, k)) / TWO32;
    assert Uint(o) == o - q * TWO32 && q * TWO32 == q * 0x10_0000 * PGSIZE;
    Multiple(q * 0x10_0000);
    AlignedSum(o, q * TWO32);
  }

  lemma OtherPage(c: seq<int>, off: int, other: seq<int>, o: int, bytes: seq<int>)
    requires |other| == PGSIZE == |bytes| && Aligned(off) && Aligned(o) && o != off && Holds(c, o, bytes)
    ensures Holds(WritePage(c, off, other), o, bytes)
  {
    AlignedSum(o, off);
    AlignedSum(off, o);
  }

  /** The last page written at u is what the file has there at the end. */
  lemma {:induction false} LastStays(c: seq<int>, pt: map<int, Page>, v: Vma, addr: int, n: nat, u: int)
    requires PagesOk(pt) && Aligned(Offset(v, addr)) && LastAt(|c|, pt, v, addr, n, u) != -1
    ensures Holds(WriteBack(c, pt, v, addr, n), u, pt[PageAt(addr, LastAt(|c|, pt, v, addr, n, u))].bytes)
  {
    var c1, w := WriteBack(c, pt, v, addr, n - 1), PageAt(addr, n - 1);
    SizeExact(c, pt, v, addr, n - 1);
    if LastAt(|c|, pt, v, addr, n, u) == n - 1 {
      AtOffset(c1, u, pt[w].bytes);
    } else {
      var j := LastAt(|c|, pt, v, addr, n - 1, u);
      LastStays(c, pt, v, addr, n - 1, u);
      CutOffAligned(v, addr, j);
      CutOffAligned(v, addr, n - 1);
      if Reaches(|c|, pt, v, addr, n - 1) { OtherPage(c1, CutOff(v, addr, n - 1), pt[w].bytes, u, pt[PageAt(addr, j)].bytes); }
    }
  }

  /** A file that ends below u does not grow past u unless a page is written there. */
  lemma {:induction false} NotPast(size: nat, pt: map<int, Page>, v: Vma, addr: int, n: nat, u: int)
    requires Aligned(Offset(v, addr)) && Aligned(u) && size <= u && LastAt(size, pt, v, addr, n, u) == -1
    ensures SizeAfter(size, pt, v, addr, n) <= u
  {
    if n > 0 {
      NotPast(size, pt, v, addr, n - 1, u);
      CutOffAligned(v, addr, n - 1);
      AlignedSum(CutOff(v, addr, n - 1), u);
    }
  }

  lemma {:induction false} SizeGrows(size: nat, pt: map<int, Page>, v: Vma, addr: int, k: nat, n: nat)
    requires k <= n
    ensures SizeAfter(size, pt, v, addr, k) <= SizeAfter(size, pt, v, addr, n)
  {
    if k < n { SizeGrows(size, pt, v, addr, k, n - 1); }
  }

  /** For every range, offsets of 2^32 and more included: a resident page of a shared writable region is what the
      file has at the page's place at the end exactly if a page was written at that place, and the last of them
      has the same bytes.  Which pages are written is decided by the initial size and the resident pages. */
  lemma PagePutBack(c: seq<int>, pt: map<int, Page>, v: Vma, addr: int, n: nat, k: nat)
    requires PagesOk(pt) && Aligned(Offset(v, addr)) && v.shared && v.prot.w && |c| <= MAXBYTES && k < n && PageAt(addr, k) in pt
    ensures var u, b := CutOff(v, addr, k), pt[PageAt(addr, k)].bytes;
            var j := LastAt(|c|, pt, v, addr, n, u);
            Holds(WriteBack(c, pt, v, addr, n), u, b) <==> j != -1 && pt[PageAt(addr, j)].bytes == b
  {
    var u := CutOff(v, addr, k);
    var j := LastAt(|c|, pt, v, addr, n, u);
    CutOffAligned(v, addr, k);
    SizeExact(c, pt, v, addr, n);
    StaysSmall(c, pt, v, addr, n);
    if j != -1 {
      LastStays(c, pt, v, addr, n, u);
      SameHolds(WriteBack(c, pt, v, addr, n), u, pt[PageAt(addr, j)].bytes, pt[PageAt(addr, k)].bytes);
    } else if u + PGSIZE <= MAXBYTES {
      assert !Reaches(|c|, pt, v, addr, k);
      NotPast(|c|, pt, v, addr, n, u);
    }
  }

  lemma SameHolds(c: seq<int>, o: int, a: seq<int>, b: seq<int>)
    requires |a| == |b| && Holds(c, o, a)
    ensures Holds(c, o, b) <==> a == b
  {
    if Holds(c, o, b) {
      forall k | 0 <= k < |a| ensures a[k] == b[k] { assert c[o + k] == a[k]; }
    }
  }

  // ---------- below 4 GiB ----------

  /** The range starts within the file, and every page before page k that ends beyond the end of the
      file is resident. */
  ghost predicate Reached(size: int, pt: map<int, Page>, v: Vma, addr: int, k: nat) {
    Offset(v, addr) <= size && forall j :: 0 <= j < k && size < Offset(v, PageAt(addr, j)) + PGSIZE ==> PageAt(addr, j) in pt
  }

  /** No resident page of the range is at an offset that does not fit in 32 bits. */
  ghost predicate Below4G(pt: map<int, Page>, v: Vma, addr: int, n: nat) {
    0 <= Offset(v, addr) && forall k :: 0 <= k < n && PageAt(addr, k) in pt ==> Offset(v, PageAt(addr, k)) < TWO32
  }

  lemma {:induction false} GrownAtMost(size: nat, pt: map<int, Page>, v: Vma, addr: int, k: nat)
    requires Below4G(pt, v, addr, k)
    ensures SizeAfter(size, pt, v, addr, k) <= Max(size, Offset(v, PageAt(addr, k)))
  {
    if k > 0 {
      GrownAtMost(size, pt, v, addr, k - 1);
      if PageAt(addr, k - 1) in pt { UintSmall(Offset(v, PageAt(addr, k - 1))); }
    }
  }

  /** By the time page k is written, its offset is within the file exactly if the file was long enough, or
      the pages from its end on up to page k are resident. */
  lemma {:induction false} InTime(size: nat, pt: map<int, Page>, v: Vma, addr: int, k: nat)
    requires Below4G(pt, v, addr, k) && v.shared && v.prot.w && Offset(v, PageAt(addr, k)) <= MAXBYTES
    ensures Offset(v, PageAt(addr, k)) <= SizeAfter(size, pt, v, addr, k) <==> Reached(size, pt, v, addr, k)
  {
    if k > 0 {
      var o := Offset(v, PageAt(addr, k - 1));
      InTime(size, pt, v, addr, k - 1);
      GrownAtMost(size, pt, v, addr, k - 1);
      if PageAt(addr, k - 1) in pt { UintSmall(o); }
      assert Offset(v, PageAt(addr, k)) == o + PGSIZE;
      if o + PGSIZE <= size {
        forall j | 0 <= j < k ensures Offset(v, PageAt(addr, j)) + PGSIZE <= size { assert Offset(v, PageAt(addr, j)) <= o; }
      }
    }
  }

  lemma ReachesBelow4G(size: nat, pt: map<int, Page>, v: Vma, addr: int, n: nat, k: nat)
    requires Below4G(pt, v, addr, n) && v.shared && v.prot.w && k < n && PageAt(addr, k) in pt
    ensures CutOff(v, addr, k) == Offset(v, PageAt(addr, k))
    ensures Reaches(size, pt, v, addr, k) <==> Reached(size, pt, v, addr, k) && Offset(v, PageAt(addr, k)) + PGSIZE <= MAXBYTES
  {
    UintSmall(Offset(v, PageAt(addr, k)));
    if Offset(v, PageAt(addr, k)) <= MAXBYTES { InTime(size, pt, v, addr, k); }
  }

  /** Without resident pages at offsets of 2^32 and more: a resident page of a shared writable region ends up in the
      file exactly if the file was long enough, or the pages from its end up to this one are resident, and the page
      fits the largest file. */
  lemma PageBelow4G(c: seq<int>, pt: map<int, Page>, v: Vma, addr: int, n: nat, k: nat)
    requires PagesOk(pt) && Aligned(Offset(v, addr)) && Below4G(pt, v, addr, n) && v.shared && v.prot.w && |c| <= MAXBYTES
    requires k < n && PageAt(addr, k) in pt
    ensures Holds(WriteBack(c, pt, v, addr, n), Offset(v, PageAt(addr, k)), pt[PageAt(addr, k)].bytes) <==>
              Reached(|c|, pt, v, addr, k) && Offset(v, PageAt(addr, k)) + PGSIZE <= MAXBYTES
  {
    PagePutBack(c, pt, v, addr, n, k);
    ReachesBelow4G(|c|, pt, v, addr, n, k);
    var j := LastAt(|c|, pt, v, addr, n, CutOff(v, addr, k));
    if j != -1 { ReachesBelow4G(|c|, pt, v, addr, n, j); }
  }

  /** The last of the first n pages that is written, or -1. */
  ghost function LastWritten(size: nat, pt: map<int, Page>, v: Vma, addr: int, n: nat): (j: int)
    ensures -1 <= j < n && (j >= 0 ==> Reaches(size, pt, v, addr, j))
    ensures forall i :: j < i < n ==> !Reaches(size, pt, v, addr, i)
  {
    if n == 0 then -1 else if Reaches(size, pt, v, addr, n - 1) then n - 1 else LastWritten(size, pt, v, addr, n - 1)
  }

  /** The size at the end (see SizeExact) is the old one, or the end of the last page that was written if that is
      more. */
  lemma {:induction false} FinalSize(size: nat, pt: map<int, Page>, v: Vma, addr: int, n: nat)
    requires Below4G(pt, v, addr, n)
    ensures var j := LastWritten(size, pt, v, addr, n);
            SizeAfter(size, pt, v, addr, n) == if j == -1 then size else Max(size, Offset(v, PageAt(addr, j)) + PGSIZE)
  {
    if n > 0 {
      FinalSize(size, pt, v, addr, n - 1);
      GrownAtMost(size, pt, v, addr, n - 1);
      if PageAt(addr, n - 1) in pt { UintSmall(Offset(v, PageAt(addr, n - 1))); }
    }
  }

  /** Unmapping a shared writable region whose resident page holds the end of the file lengthens the file to the
      end of that page at least. */
  lemma Lengthens(c: seq<int>, pt: map<int, Page>, v: Vma, addr: int, n: nat, k: nat)
    requires PagesOk(pt) && Aligned(Offset(v, addr)) && 0 <= Offset(v, addr) && v.shared && v.prot.w && |c| <= MAXBYTES
    requires k < n && PageAt(addr, k) in pt && Offset(v, PageAt(addr, k)) < |c| < Offset(v, PageAt(addr, k)) + PGSIZE
    ensures |WriteBack(c, pt, v, addr, n)| >= Offset(v, PageAt(addr, k)) + PGSIZE > |c|
  {
    var o := Offset(v, PageAt(addr, k));
    UintSmall(o);
    CutOffAligned(v, addr, k);
    assert Aligned(MAXBYTES);
    AlignedSum(o, MAXBYTES);
    SizeExact(c, pt, v, addr, n);
    SizeGrows(|c|, pt, v, addr, k + 1, n);
  }
}
