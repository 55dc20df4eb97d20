/** The cache of LogMachine is the buffer cache of Bcache: which blocks have a buffer, who uses
    it, and what it holds. */
module LogCache {
  import opened LogMachine
  import opened LogProof
  import opened Bcache

  /** One buffer and the state of the machine. */
  ghost predicate BufTied(m: State, f: Buf, latest: seq<Block>, d: bool, p: int) {
    if f.dev == ROOTDEV then
      && 0 <= f.blockno < |latest| && f.blockno in m.cache && m.cache[f.blockno] == latest[f.blockno]
      && p == (if Pinned(m, f.blockno) then 1 else 0)
      && (f.locked <==> f.blockno in m.held) && (f.locked ==> f.valid)
      && f.refcnt == p + (if f.locked then 1 else 0) + m.claim[f.blockno]
      && (d ==> Pinned(m, f.blockno) || f.blockno in m.dirty)
    else f.dev == 0 && f.refcnt == 0 && p == 0 && !f.locked && !d
  }

  /** Every block of the machine's cache has a buffer. */
  ghost predicate Cached(buf: seq<Buf>, b: int) { exists x :: 0 <= x < |buf| && Caches(buf[x], b) }

  ghost predicate TiedAt(m: State, k: Snap, x: int)
    requires 0 <= x < NBUF && |k.buf| == |k.dirty| == |k.pins| == NBUF
  { BufTied(m, k.buf[x], k.latest, k.dirty[x], k.pins[x]) }

  ghost predicate Tied(m: State, k: Snap) {
    && |k.buf| == |k.dirty| == |k.pins| == NBUF && k.disk == m.disk && |k.latest| == |k.disk|
    && (forall x :: 0 <= x < NBUF ==> TiedAt(m, k, x))
    && (forall b :: b in m.cache ==> Cached(k.buf, b))
    && Unique(k.buf) && Covered(k.buf, k.dirty, k.disk, k.latest)
  }

  /** What bread returns is what the cache says is latest. */
  lemma ViewIsLatest(m: State, k: Snap, b: int)
    requires Tied(m, k) && 0 <= b < |k.disk|
    ensures View(m, b) == k.latest[b]
  {
    if b in m.cache {
      assert Cached(k.buf, b);
      var x :| 0 <= x < |k.buf| && Caches(k.buf[x], b);
      assert TiedAt(m, k, x);
    } else {
      forall x | 0 <= x < NBUF ensures !Caches(k.buf[x], b) { assert TiedAt(m, k, x); }
    }
  }

  // ---------- counting buffers ----------

  function Numbers(buf: seq<Buf>, skip: int, n: nat): set<int>
    requires n <= |buf|
  { set y | 0 <= y < n && y != skip :: buf[y].blockno }

  lemma {:induction false} NumbersAtMost(buf: seq<Buf>, skip: int, n: nat)
    requires n <= |buf|
    ensures |Numbers(buf, skip, n)| <= if 0 <= skip < n then n - 1 else n
  {
    if n == 0 {
      assert Numbers(buf, skip, n) == {};
    } else {
      NumbersAtMost(buf, skip, n - 1);
      var a := Numbers(buf, skip, n - 1);
      if n - 1 == skip { assert Numbers(buf, skip, n) == a; }
      else { assert Numbers(buf, skip, n) == a + {buf[n - 1].blockno}; }
    }
  }

  lemma {:induction false} NumbersExactly(buf: seq<Buf>, n: nat)
    requires n <= |buf| && Unique(buf) && forall x :: 0 <= x < n ==> buf[x].dev == ROOTDEV
    ensures |Numbers(buf, -1, n)| == n
  {
    if n == 0 {
      assert Numbers(buf, -1, n) == {};
    } else {
      NumbersExactly(buf, n - 1);
      var a := Numbers(buf, -1, n - 1);
      assert Numbers(buf, -1, n) == a + {buf[n - 1].blockno};
      forall y | 0 <= y < n - 1 ensures buf[y].blockno != buf[n - 1].blockno { assert Apart(buf, y, n - 1); }
    }
  }

  /** A buffer that has no block leaves room in the machine's cache. */
  lemma FreeBuffer(m: State, k: Snap, x: int)
    requires Tied(m, k) && 0 <= x < NBUF && k.buf[x].dev != ROOTDEV
    ensures |m.cache| < NBUF
  {
    NumbersAtMost(k.buf, x, NBUF);
    forall b | b in m.cache ensures b in Numbers(k.buf, x, NBUF) {
      assert Cached(k.buf, b);
      var y :| 0 <= y < |k.buf| && Caches(k.buf[y], b);
      assert y != x;
    }
    SubsetSize(m.cache.Keys, Numbers(k.buf, x, NBUF));
  }

  lemma AllBuffersUsed(m: State, k: Snap, b: int)
    requires Tied(m, k) && |m.cache| <= NBUF && forall x :: 0 <= x < NBUF ==> !Caches(k.buf[x], b) && k.buf[x].refcnt != 0
    ensures BgetPanics(m, b)
  {
    forall x | 0 <= x < NBUF ensures k.buf[x].dev == ROOTDEV && k.buf[x].blockno in m.cache && Used(m, k.buf[x].blockno) { assert TiedAt(m, k, x); }
    NumbersExactly(k.buf, NBUF);
    SubsetSize(Numbers(k.buf, -1, NBUF), m.cache.Keys);
    forall y | y in m.cache ensures y != b && Used(m, y) {
      assert Cached(k.buf, y);
      var x :| 0 <= x < |k.buf| && Caches(k.buf[x], y);
    }
  }

  /** bget's panic is the machine's. */
  lemma PanicIs(m: State, k: Snap, b: int)
    requires Tied(m, k) && |m.cache| <= NBUF
    ensures (forall x :: 0 <= x < NBUF ==> !Caches(k.buf[x], b) && k.buf[x].refcnt != 0) <==> BgetPanics(m, b)
  {
    if forall x :: 0 <= x < NBUF ==> !Caches(k.buf[x], b) && k.buf[x].refcnt != 0 { AllBuffersUsed(m, k, b); }
    if BgetPanics(m, b) {
      forall x | 0 <= x < NBUF ensures !Caches(k.buf[x], b) && k.buf[x].refcnt != 0 {
        assert TiedAt(m, k, x);
        if k.buf[x].dev != ROOTDEV { FreeBuffer(m, k, x); }
      }
    }
  }

  // ---------- the steps ----------

  /** For every block but b nothing changes that a buffer shows. */
  ghost predicate SameBut(m: State, m': State, b: int) {
    && (forall n :: n != b ==> (n in m'.cache <==> n in m.cache) && (n in m.cache && n in m'.cache ==> m'.cache[n] == m.cache[n]))
    && (forall n :: n != b ==> (n in m'.held <==> n in m.held) && m'.claim[n] == m.claim[n] && (n in m'.dirty <==> n in m.dirty))
    && (forall n :: n != b ==> (Pinned(m', n) <==> Pinned(m, n)))
  }

  /** Only buffer x, with block b, and block b itself change. */
  ghost predicate OnlyOne(k: Snap, k': Snap, x: int, b: int) {
    && |k.buf| == |k.dirty| == |k.pins| == |k'.buf| == |k'.dirty| == |k'.pins| == NBUF
    && |k.latest| == |k.disk| == |k'.latest| == |k'.disk|
    && 0 <= x < NBUF && Caches(k.buf[x], b) && Caches(k'.buf[x], b)
    && (forall y :: 0 <= y < NBUF && y != x ==> k'.buf[y] == k.buf[y] && k'.dirty[y] == k.dirty[y] && k'.pins[y] == k.pins[y])
    && (forall n :: 0 <= n < |k.latest| && n != b ==> k'.latest[n] == k.latest[n])
  }

  lemma OneBuffer(m: State, m': State, k: Snap, k': Snap, x: int, b: int)
    requires Tied(m, k) && OnlyOne(k, k', x, b) && SameBut(m, m', b) && TiedAt(m', k', x) && k'.disk == m'.disk
    requires Unique(k'.buf) && Covered(k'.buf, k'.dirty, k'.disk, k'.latest)
    ensures Tied(m', k')
  {
    forall y | 0 <= y < NBUF ensures TiedAt(m', k', y) {
      assert TiedAt(m, k, y);
      if y != x { assert if y < x then Apart(k.buf, y, x) else Apart(k.buf, x, y); }
    }
    forall n | n in m'.cache ensures Cached(k'.buf, n) {
      if n == b { assert Caches(k'.buf[x], n); }
      else {
        assert Cached(k.buf, n);
        var y :| 0 <= y < |k.buf| && Caches(k.buf[y], n);
        assert Caches(k'.buf[y], n);
      }
    }
  }

  /** The machine without the block that buffer x has, which nobody uses. */
  ghost function Without(m: State, f: Buf): State { if f.dev == ROOTDEV then m.(cache := m.cache - {f.blockno}) else m }

  function Fetched(f: Buf, b: int): Buf { f.(dev := ROOTDEV, blockno := b, valid := false, refcnt := 1) }

  lemma Recyclable(m: State, k: Snap, x: int, b: nat)
    requires Tied(m, k) && CacheInv(m) && 0 <= x < NBUF && b < |k.disk| && k.buf[x].refcnt == 0
    requires forall y :: 0 <= y < NBUF ==> !Caches(k.buf[y], b)
    ensures b !in m.cache && |Without(m, k.buf[x]).cache| < NBUF && k.latest[b] == k.disk[b]
    ensures k.buf[x].dev == ROOTDEV ==> k.buf[x].blockno in m.cache && !Used(m, k.buf[x].blockno)
  {
    assert TiedAt(m, k, x);
    assert b in m.cache ==> Cached(k.buf, b);
    if k.buf[x].dev != ROOTDEV { FreeBuffer(m, k, x); }
  }

  /** Recycling a buffer: its old block goes, and b gets it. */
  lemma Recycled(m: State, m': State, k: Snap, k': Snap, x: int, b: nat)
    requires Tied(m, k) && CacheInv(m) && 0 <= x < NBUF && b < |k.disk| && k.buf[x].refcnt == 0
    requires forall y :: 0 <= y < NBUF ==> !Caches(k.buf[y], b)
    requires k' == k.(buf := k.buf[x := Fetched(k.buf[x], b)]) && Unique(k'.buf) && Covered(k'.buf, k'.dirty, k'.disk, k'.latest)
    requires var w := Without(m, k.buf[x]); m' == w.(cache := w.cache[b := k.disk[b]], claim := w.claim + multiset{b})
    ensures Tied(m', k')
  {
    Recyclable(m, k, x, b);
    assert TiedAt(m, k, x);
    forall n ensures Pinned(m', n) <==> Pinned(m, n) {}
    forall y | 0 <= y < NBUF ensures TiedAt(m', k', y) {
      assert TiedAt(m, k, y);
      if y != x { assert if y < x then Apart(k.buf, y, x) else Apart(k.buf, x, y); }
    }
    forall n | n in m'.cache ensures Cached(k'.buf, n) {
      if n == b { assert Caches(k'.buf[x], n); }
      else {
        assert Cached(k.buf, n);
        var y :| 0 <= y < |k.buf| && Caches(k.buf[y], n);
        assert Caches(k'.buf[y], n);
      }
    }
  }

  /** Nothing that a buffer shows changes. */
  lemma TiedSame(m: State, m': State, k: Snap)
    requires Tied(m, k) && m'.disk == m.disk && m'.cache == m.cache && m'.held == m.held && m'.claim == m.claim && m'.dirty == m.dirty
    requires forall n :: Pinned(m', n) <==> Pinned(m, n)
    ensures Tied(m', k)
  {
    forall x | 0 <= x < NBUF ensures TiedAt(m', k, x) { assert TiedAt(m, k, x); }
  }

  /** One user more of a buffer. */
  lemma HitTied(m: State, m': State, k: Snap, k': Snap, x: int, b: int)
    requires Tied(m, k) && 0 <= x < NBUF && Caches(k.buf[x], b)
    requires k' == k.(buf := k.buf[x := k.buf[x].(refcnt := k.buf[x].refcnt + 1)]) && Unique(k'.buf) && Covered(k'.buf, k'.dirty, k'.disk, k'.latest)
    requires m' == m.(claim := m.claim + multiset{b})
    ensures b in m.cache && Tied(m', k')
  {
    assert TiedAt(m, k, x);
    forall i ensures Pinned(m', i) <==> Pinned(m, i) {}
    OneBuffer(m, m', k, k', x, b);
  }

  /** A user gets the lock. */
  lemma LockTied(m: State, m': State, k: Snap, k': Snap, x: int, b: int, who: Who)
    requires Tied(m, k) && 0 <= x < NBUF && Caches(k.buf[x], b) && m.claim[b] > 0 && b !in m.held
    requires |k'.buf| == NBUF && k' == k.(buf := k.buf[x := k'.buf[x]])
    requires 0 <= b < |k.latest| && k'.buf[x] == k.buf[x].(locked := true, valid := true, data := k.latest[b])
    requires Unique(k'.buf) && Covered(k'.buf, k'.dirty, k'.disk, k'.latest)
    requires m' == m.(claim := m.claim - multiset{b}, held := m.held[b := who])
    ensures Tied(m', k')
  {
    assert TiedAt(m, k, x);
    forall i ensures Pinned(m', i) <==> Pinned(m, i) {}
    OneBuffer(m, m', k, k', x, b);
  }

  /** The holder changes the data. */
  lemma ModifyTied(m: State, m': State, k: Snap, k': Snap, x: int, b: int, data: Block)
    requires Tied(m, k) && 0 <= x < NBUF && Caches(k.buf[x], b) && 0 <= b < |k.latest| && b in m.cache
    requires k' == k.(buf := k.buf[x := k.buf[x].(data := data)], latest := k.latest[b := data], dirty := k.dirty[x := true])
    requires Unique(k'.buf) && Covered(k'.buf, k'.dirty, k'.disk, k'.latest)
    requires m'.disk == m.disk && m'.cache == m.cache[b := data] && m'.held == m.held && m'.claim == m.claim && m'.dirty == m.dirty + {b}
    requires forall n :: Pinned(m', n) <==> Pinned(m, n)
    ensures Tied(m', k')
  {
    assert TiedAt(m, k, x);
    OneBuffer(m, m', k, k', x, b);
  }

  /** log_write of a new block pins its buffer. */
  lemma PinTied(m: State, m': State, k: Snap, k': Snap, x: int, b: int)
    requires Tied(m, k) && 0 <= x < NBUF && Caches(k.buf[x], b) && !Pinned(m, b)
    requires k' == k.(buf := k.buf[x := k.buf[x].(refcnt := k.buf[x].refcnt + 1)], pins := k.pins[x := k.pins[x] + 1])
    requires Unique(k'.buf) && Covered(k'.buf, k'.dirty, k'.disk, k'.latest)
    requires m'.disk == m.disk && m'.cache == m.cache && m'.held == m.held && m'.claim == m.claim && m'.dirty == m.dirty - {b}
    requires forall n :: Pinned(m', n) <==> Pinned(m, n) || n == b
    ensures Tied(m', k')
  {
    assert TiedAt(m, k, x);
    OneBuffer(m, m', k, k', x, b);
  }

  /** log_write of a listed block only notes that it is logged. */
  lemma AbsorbTied(m: State, m': State, k: Snap, b: int)
    requires Tied(m, k) && Pinned(m, b)
    requires m'.disk == m.disk && m'.cache == m.cache && m'.held == m.held && m'.claim == m.claim && m'.dirty == m.dirty - {b}
    requires forall n :: Pinned(m', n) <==> Pinned(m, n)
    ensures Tied(m', k)
  {
    forall x | 0 <= x < NBUF ensures TiedAt(m', k, x) { assert TiedAt(m, k, x); }
  }

  lemma UnlockTied(m: State, m': State, k: Snap, k': Snap, x: int, b: int)
    requires Tied(m, k) && 0 <= x < NBUF && Caches(k.buf[x], b) && b in m.held && b !in m.dirty
    requires k' == k.(buf := k.buf[x := k.buf[x].(locked := false)])
    requires Unique(k'.buf) && Covered(k'.buf, k'.dirty, k'.disk, k'.latest)
    requires m' == m.(held := m.held - {b}, claim := m.claim + multiset{b})
    ensures Tied(m', k')
  {
    assert TiedAt(m, k, x);
    forall i ensures Pinned(m', i) <==> Pinned(m, i) {}
    OneBuffer(m, m', k, k', x, b);
  }

  lemma DropTied(m: State, m': State, k: Snap, k': Snap, x: int, b: int)
    requires Tied(m, k) && 0 <= x < NBUF && Caches(k.buf[x], b) && m.claim[b] > 0
    requires k' == k.(buf := k.buf[x := k.buf[x].(refcnt := k.buf[x].refcnt - 1)])
    requires Unique(k'.buf) && Covered(k'.buf, k'.dirty, k'.disk, k'.latest)
    requires m' == m.(claim := m.claim - multiset{b})
    ensures Tied(m', k')
  {
    assert TiedAt(m, k, x);
    forall i ensures Pinned(m', i) <==> Pinned(m, i) {}
    OneBuffer(m, m', k, k', x, b);
  }

  /** A block written to the disk from its buffer, and unpinned if it was pinned. */
  lemma WriteTied(m: State, m': State, k: Snap, k': Snap, x: int, b: int, data: Block)
    requires Tied(m, k) && 0 <= x < NBUF && Caches(k.buf[x], b) && 0 <= b < |k.latest| && b in m.cache && b in m.held
    requires |k'.buf| == |k'.dirty| == |k'.pins| == NBUF
    requires k' == k.(buf := k.buf[x := k'.buf[x]], latest := k.latest[b := data], disk := k.disk[b := data], dirty := k'.dirty, pins := k.pins[x := k'.pins[x]])
    requires (forall y :: 0 <= y < NBUF && y != x ==> k'.dirty[y] == k.dirty[y]) && !k'.dirty[x]
    requires k'.pins[x] == (if Pinned(m', b) then 1 else 0) && k'.buf[x] == k.buf[x].(data := data, refcnt := k.buf[x].refcnt - k.pins[x] + k'.pins[x])
    requires Unique(k'.buf) && Covered(k'.buf, k'.dirty, k'.disk, k'.latest)
    requires m'.disk == m.disk[b := data] && m'.cache == m.cache[b := data] && m'.held == m.held && m'.claim == m.claim && m'.dirty == m.dirty
    requires forall n :: n != b ==> (Pinned(m', n) <==> Pinned(m, n))
    ensures Tied(m', k')
  {
    assert TiedAt(m, k, x);
    OneBuffer(m, m', k, k', x, b);
  }
}
