/** The buffer cache of kernel/bio.c: a fixed set of buffers on a circular doubly
    linked list, with reference counts.

    Each method below is what one process does while it holds bcache.lock, or does
    to a buffer whose sleep-lock it holds; whatever the interleaving of processes,
    the cache goes through a sequence of these calls.  virtio_disk_rw uses only the
    block number, so there is one device, ROOTDEV. */
module Bcache {
  import opened LogMachine

  const HEAD := 30      // bcache.head
  const ROOTDEV := 1

  datatype Buf = Buf(dev: int, blockno: int, refcnt: int, valid: bool, locked: bool, data: Block)

  // ---------- the list ----------

  predicate Node(x: int) { 0 <= x <= HEAD }
  predicate IsBuf(x: int) { 0 <= x < NBUF }

  /** No buffer was released to zero after y and before x; HEAD bounds nothing. */
  ghost predicate NoneBetween(stamp: seq<int>, x: int, y: int)
    requires |stamp| == NBUF && Node(x) && Node(y)
  {
    forall z :: 0 <= z < NBUF ==> !((x == HEAD || stamp[z] < stamp[x]) && (y == HEAD || stamp[y] < stamp[z]))
  }

  /** y comes right after x in the order of release, the latest first. */
  ghost predicate Follows(stamp: seq<int>, x: int, y: int)
    requires |stamp| == NBUF && Node(x) && Node(y)
  { (x != HEAD && y != HEAD ==> stamp[y] < stamp[x]) && NoneBetween(stamp, x, y) }

  ghost predicate TwoWay(next: seq<int>, prev: seq<int>, x: int)
    requires |next| == |prev| == NBUF + 1 && Node(x)
  { Node(next[x]) && Node(prev[x]) && prev[next[x]] == x && next[prev[x]] == x }

  ghost predicate LinkOk(next: seq<int>, prev: seq<int>, stamp: seq<int>, x: int)
    requires |next| == |prev| == NBUF + 1 && |stamp| == NBUF && Node(x)
  { TwoWay(next, prev, x) && Follows(stamp, x, next[x]) }

  /** next and prev link all buffers into one circle through HEAD, the most recently
      released buffer first. */
  ghost predicate Linked(next: seq<int>, prev: seq<int>, stamp: seq<int>, clock: int) {
    && |next| == |prev| == NBUF + 1 && |stamp| == NBUF
    && (forall x :: 0 <= x <= HEAD ==> LinkOk(next, prev, stamp, x))
    && (forall x :: 0 <= x < NBUF ==> 0 <= stamp[x] < clock)
    && (forall x, y :: 0 <= x < y < NBUF ==> stamp[x] != stamp[y])
  }

  /** Unlinking b and linking it in behind HEAD, as brelse does. */
  function Moved(next: seq<int>, prev: seq<int>, b: int): (r: (seq<int>, seq<int>))
    requires |next| == |prev| == NBUF + 1 && IsBuf(b)
    requires Node(next[b]) && Node(prev[b])
    requires Node(next[prev[b] := next[b]][HEAD])
    ensures |r.0| == |r.1| == NBUF + 1
  {
    var prev1 := prev[next[b] := prev[b]];
    var next1 := next[prev[b] := next[b]];
    var first := next1[HEAD];
    (next1[b := first][HEAD := b], prev1[b := HEAD][first := b])
  }

  lemma MovedTwoWay(next: seq<int>, prev: seq<int>, b: int, x: int, first: int)
    requires |next| == |prev| == NBUF + 1 && IsBuf(b) && Node(x)
    requires TwoWay(next, prev, b) && TwoWay(next, prev, HEAD) && TwoWay(next, prev, x)
    requires TwoWay(next, prev, prev[b]) && TwoWay(next, prev, next[b])
    requires first == next[prev[b] := next[b]][HEAD] && Node(first) && TwoWay(next, prev, first)
    ensures TwoWay(Moved(next, prev, b).0, Moved(next, prev, b).1, x)
    ensures Moved(next, prev, b).0[x] == if x == HEAD then b else if x == b then first else if x == prev[b] then next[b] else next[x]
  {}

  ghost predicate Stamped(stamp: seq<int>, clock: int) {
    && |stamp| == NBUF && (forall z :: 0 <= z < NBUF ==> stamp[z] < clock)
    && forall y, z :: 0 <= y < z < NBUF ==> stamp[y] != stamp[z]
  }

  /** Once b is taken out, its neighbours follow one another. */
  lemma Closes(stamp: seq<int>, clock: int, x: int, b: int, y: int)
    requires Stamped(stamp, clock) && IsBuf(b) && Node(x) && Node(y) && y != b && x != HEAD && x != b
    requires Follows(stamp, x, b) && Follows(stamp, b, y)
    ensures Follows(stamp[b := clock], x, y)
  {
    forall z | 0 <= z < NBUF && z != b ensures !(stamp[z] < stamp[x] && (y == HEAD || stamp[y] < stamp[z])) {}
  }

  /** Other neighbours still do. */
  lemma StillFollows(stamp: seq<int>, clock: int, x: int, b: int, y: int)
    requires Stamped(stamp, clock) && IsBuf(b) && Node(x) && Node(y) && y != b && x != HEAD && x != b
    requires Follows(stamp, x, y)
    ensures Follows(stamp[b := clock], x, y)
  {}

  /** b, now the latest, is followed by what was first of the others. */
  lemma AtFront(stamp: seq<int>, clock: int, b: int, y: int)
    requires Stamped(stamp, clock) && IsBuf(b) && Node(y) && y != b
    requires Follows(stamp, HEAD, y) || (Follows(stamp, HEAD, b) && Follows(stamp, b, y))
    ensures Follows(stamp[b := clock], HEAD, b) && Follows(stamp[b := clock], b, y)
  {
    forall z | 0 <= z < NBUF && z != b ensures !(y == HEAD || stamp[y] < stamp[z]) { assert stamp[z] != stamp[b]; }
  }

  lemma MovedAt(next: seq<int>, prev: seq<int>, stamp: seq<int>, clock: int, b: int, x: int, first: int)
    requires |next| == |prev| == NBUF + 1 && Stamped(stamp, clock) && IsBuf(b) && Node(x)
    requires LinkOk(next, prev, stamp, b) && LinkOk(next, prev, stamp, HEAD) && LinkOk(next, prev, stamp, x)
    requires LinkOk(next, prev, stamp, prev[b]) && LinkOk(next, prev, stamp, next[b])
    requires first == next[prev[b] := next[b]][HEAD] && first != b && Node(first) && LinkOk(next, prev, stamp, first)
    ensures LinkOk(Moved(next, prev, b).0, Moved(next, prev, b).1, stamp[b := clock], x)
  {
    MovedTwoWay(next, prev, b, x, first);
    if x == HEAD || x == b {
      AtFront(stamp, clock, b, first);
    } else if x == prev[b] {
      Closes(stamp, clock, x, b, next[b]);
    } else {
      StillFollows(stamp, clock, x, b, next[x]);
    }
  }

  lemma MovedLinked(next: seq<int>, prev: seq<int>, stamp: seq<int>, clock: int, b: int)
    requires Linked(next, prev, stamp, clock) && IsBuf(b)
    ensures Node(next[b]) && Node(prev[b]) && Node(next[prev[b] := next[b]][HEAD])
    ensures var m := Moved(next, prev, b); Linked(m.0, m.1, stamp[b := clock], clock + 1)
  {
    assert LinkOk(next, prev, stamp, b) && LinkOk(next, prev, stamp, HEAD);
    var m, stamp', first := Moved(next, prev, b), stamp[b := clock], next[prev[b] := next[b]][HEAD];
    assert next[b] != b && first != b by { assert LinkOk(next, prev, stamp, prev[b]); }
    forall x | 0 <= x <= HEAD ensures LinkOk(m.0, m.1, stamp', x) {
      MovedAt(next, prev, stamp, clock, b, x, first);
    }
  }

  /** Where k steps along next from HEAD lead. */
  ghost function Steps(next: seq<int>, k: nat): int
    requires |next| == NBUF + 1 && forall x :: 0 <= x <= HEAD ==> Node(next[x])
    ensures Node(Steps(next, k))
  { if k == 0 then HEAD else next[Steps(next, k - 1)] }

  /** Every buffer is on the circle, and no two lead to the same successor. */
  lemma {:induction false} OnCircle(next: seq<int>, prev: seq<int>, stamp: seq<int>, clock: int, b: int) returns (k: nat)
    requires Linked(next, prev, stamp, clock) && IsBuf(b)
    ensures forall x :: 0 <= x <= HEAD ==> Node(next[x])
    ensures k > 0 && Steps(next, k) == b
    ensures forall x, y :: 0 <= x <= HEAD && 0 <= y <= HEAD && next[x] == next[y] ==> x == y
    decreases clock - stamp[b]
  {
    forall x | 0 <= x <= HEAD ensures Node(next[x]) && prev[next[x]] == x { assert LinkOk(next, prev, stamp, x); }
    assert LinkOk(next, prev, stamp, b) && LinkOk(next, prev, stamp, prev[b]);
    if prev[b] == HEAD {
      k := 1;
      assert Steps(next, 0) == HEAD;
    } else {
      k := OnCircle(next, prev, stamp, clock, prev[b]);
      k := k + 1;
    }
  }

  // ---------- the cache ----------

  predicate Caches(f: Buf, n: int) { f.dev == ROOTDEV && f.blockno == n }

  /** One buffer: its count covers the pins and the holder of its lock; when it is
      valid it has the latest contents, and unless it is dirty so has the disk. */
  ghost predicate BufOk(f: Buf, dirty: bool, pins: int, disk: seq<Block>, latest: seq<Block>)
    requires |disk| == |latest|
  {
    && 0 <= pins && pins + (if f.locked then 1 else 0) <= f.refcnt
    && (dirty ==> f.valid && f.dev == ROOTDEV && (f.locked || pins > 0))
    && (f.dev == 0 || f.dev == ROOTDEV)
    && (f.dev == ROOTDEV ==>
          && 0 <= f.blockno < |disk|
          && (f.valid ==> f.data == latest[f.blockno])
          && (!dirty ==> disk[f.blockno] == latest[f.blockno]))
  }

  /** At most one buffer per block. */
  ghost predicate Unique(buf: seq<Buf>) { forall a, b :: 0 <= a < b < |buf| ==> Apart(buf, a, b) }

  ghost predicate Apart(buf: seq<Buf>, a: int, b: int)
    requires 0 <= a < b < |buf|
  { buf[a].dev == ROOTDEV == buf[b].dev ==> buf[a].blockno != buf[b].blockno }

  ghost predicate BufAt(buf: seq<Buf>, dirty: seq<bool>, pins: seq<int>, disk: seq<Block>, latest: seq<Block>, b: int)
    requires |disk| == |latest| && 0 <= b < |buf| == |dirty| == |pins|
  { BufOk(buf[b], dirty[b], pins[b], disk, latest) }

  /** A block that the disk does not have up to date is in a dirty buffer. */
  ghost predicate Covered(buf: seq<Buf>, dirty: seq<bool>, disk: seq<Block>, latest: seq<Block>)
    requires |buf| == |dirty| && |disk| == |latest|
  {
    forall n :: 0 <= n < |disk| && disk[n] != latest[n] ==> exists b :: 0 <= b < |buf| && Caches(buf[b], n) && dirty[b]
  }

  lemma OneChanged(buf: seq<Buf>, buf': seq<Buf>, dirty: seq<bool>, pins: seq<int>, pins': seq<int>, disk: seq<Block>, latest: seq<Block>, b: int)
    requires |buf| == |buf'| == |dirty| == |pins| == |pins'| == NBUF && |disk| == |latest| && IsBuf(b)
    requires forall x :: 0 <= x < NBUF ==> BufAt(buf, dirty, pins, disk, latest, x)
    requires Unique(buf) && Covered(buf, dirty, disk, latest)
    requires forall x :: 0 <= x < NBUF && x != b ==> buf'[x] == buf[x] && pins'[x] == pins[x]
    requires BufOk(buf'[b], dirty[b], pins'[b], disk, latest)
    requires (buf'[b].dev == buf[b].dev && buf'[b].blockno == buf[b].blockno)
             || (!dirty[b] && forall x :: 0 <= x < NBUF ==> !Caches(buf[x], buf'[b].blockno))
    ensures forall x :: 0 <= x < NBUF ==> BufAt(buf', dirty, pins', disk, latest, x)
    ensures Unique(buf') && Covered(buf', dirty, disk, latest)
  {
    forall x | 0 <= x < NBUF ensures BufAt(buf', dirty, pins', disk, latest, x) { assert BufAt(buf, dirty, pins, disk, latest, x); }
    forall x, y | 0 <= x < y < NBUF ensures Apart(buf', x, y) { assert Apart(buf, x, y); }
    forall n | 0 <= n < |disk| && disk[n] != latest[n] ensures exists x :: 0 <= x < |buf'| && Caches(buf'[x], n) && dirty[x] {
      var x :| 0 <= x < |buf| && Caches(buf[x], n) && dirty[x];
      assert Caches(buf'[x], n);
    }
  }

  /** The contents of the cache without its list. */
  datatype Snap = Snap(buf: seq<Buf>, disk: seq<Block>, latest: seq<Block>, dirty: seq<bool>, pins: seq<int>)

  class Bcache {
    var buf: seq<Buf>
    var next: seq<int>
    var prev: seq<int>
    var disk: seq<Block>
    ghost var stamp: seq<int>     // when each buffer was last released to zero
    ghost var clock: int
    ghost var latest: seq<Block>  // the flat array of blocks that the cache implements
    ghost var dirty: seq<bool>    // modified and not written since
    ghost var pins: seq<int>      // bpin minus bunpin

    ghost predicate Valid()
      reads this
    {
      && |buf| == |dirty| == |pins| == NBUF && |disk| == |latest|
      && Linked(next, prev, stamp, clock)
      && (forall b :: 0 <= b < NBUF ==> BufAt(buf, dirty, pins, disk, latest, b))
      && Unique(buf) && Covered(buf, dirty, disk, latest)
    }

    ghost predicate At(b: int)
      reads this
      requires IsBuf(b) && |buf| == |dirty| == |pins| == NBUF && |disk| == |latest|
    { BufAt(buf, dirty, pins, disk, latest, b) }

    ghost function S(): Snap
      reads this
    { Snap(buf, disk, latest, dirty, pins) }

    /** The buffer that caches block n has been found, or there is none. */
    ghost predicate Found(b: int, n: int)
      reads this
      requires |buf| == NBUF
    { if b == HEAD then forall x :: 0 <= x < NBUF ==> !Caches(buf[x], n) else IsBuf(b) && Caches(buf[b], n) }

    /** The first loop of bget. */
    method Search(dev: int, n: int) returns (b: int)
      requires Valid() && dev == ROOTDEV
      ensures Found(b, n)
    {
      assert LinkOk(next, prev, stamp, HEAD) && NoneBetween(stamp, HEAD, next[HEAD]);
      b := next[HEAD];
      assert b != HEAD by { assert stamp[0] < clock; }
      while b != HEAD
        invariant Node(b)
        invariant forall x :: 0 <= x < NBUF && (b == HEAD || stamp[b] < stamp[x]) ==> !Caches(buf[x], n)
        decreases if b == HEAD then -1 else stamp[b]
      {
        assert LinkOk(next, prev, stamp, b) && NoneBetween(stamp, b, next[b]);
        if buf[b].dev == dev && buf[b].blockno == n { return; }
        b := next[b];
      }
    }

    /** The second loop of bget: the unused buffer that has been unused longest. */
    method Oldest() returns (b: int)
      requires Valid()
      ensures b == HEAD ==> forall x :: 0 <= x < NBUF ==> buf[x].refcnt != 0
      ensures b != HEAD ==> IsBuf(b) && buf[b].refcnt == 0
      ensures b != HEAD ==> forall x :: 0 <= x < NBUF && buf[x].refcnt == 0 ==> stamp[b] <= stamp[x]
    {
      assert LinkOk(next, prev, stamp, HEAD) && LinkOk(next, prev, stamp, prev[HEAD]);
      assert NoneBetween(stamp, prev[HEAD], HEAD);
      b := prev[HEAD];
      assert b != HEAD by { assert stamp[0] < clock; }
      while b != HEAD
        invariant Node(b)
        invariant forall x :: 0 <= x < NBUF && (b == HEAD || stamp[x] < stamp[b]) ==> buf[x].refcnt != 0
        decreases if b == HEAD then -1 else clock - stamp[b]
      {
        assert LinkOk(next, prev, stamp, b) && LinkOk(next, prev, stamp, prev[b]);
        assert NoneBetween(stamp, prev[b], b);
        if buf[b].refcnt == 0 { return; }
        b := prev[b];
      }
    }

    /** binit: buffer 0 is linked in first, so the last one is at the front. */
    constructor (image: seq<Block>)
      ensures Valid() && disk == latest == image
      ensures forall b :: 0 <= b < NBUF ==> buf[b].refcnt == 0 && buf[b].dev == 0 && stamp[b] == b
    {
      buf := seq(NBUF, _ => Buf(0, 0, 0, false, false, seq(WORDS, _ => 0)));
      disk, latest := image, image;
      stamp, clock := seq(NBUF, i => i), NBUF;
      dirty, pins := seq(NBUF, _ => false), seq(NBUF, _ => 0);
      var nx, pv := seq(NBUF + 1, _ => HEAD), seq(NBUF + 1, _ => HEAD);
      for b := 0 to NBUF
        invariant |nx| == |pv| == NBUF + 1
        invariant nx[HEAD] == (if b == 0 then HEAD else b - 1) && pv[HEAD] == (if b == 0 then HEAD else 0)
        invariant forall i :: 0 <= i < b ==> nx[i] == (if i == 0 then HEAD else i - 1) && pv[i] == if i == b - 1 then HEAD else i + 1
      {
        nx, pv := nx[b := nx[HEAD]], pv[b := HEAD];
        pv := pv[nx[HEAD] := b];
        nx := nx[HEAD := b];
      }
      next, prev := nx, pv;
      new;
      forall x | 0 <= x <= HEAD ensures LinkOk(next, prev, stamp, x) {}
    }

    // ---------- references ----------

    /** Every buffer but b, and everything about the list, is as before. */
    twostate predicate OnlyBuf(b: int)
      reads this
      requires |buf| == |old(buf)| == NBUF
    {
      && (forall x :: 0 <= x < NBUF && x != b ==> buf[x] == old(buf[x]))
      && next == old(next) && prev == old(prev) && stamp == old(stamp) && clock == old(clock)
    }

    /** Find block n's buffer, or recycle the unused buffer that has been unused
        longest; -1 stands for the panic when there is none. */
    method Bget(dev: int, n: int) returns (b: int)
      requires Valid() && dev == ROOTDEV && 0 <= n < |disk|
      modifies this`buf
      ensures Valid() && |old(buf)| == NBUF && OnlyBuf(b)
      ensures b == -1 || (IsBuf(b) && Caches(buf[b], n) && buf[b].refcnt == old(buf[b].refcnt) + 1 && buf[b].locked == old(buf[b].locked))
      ensures b == -1 <==> old((forall x :: 0 <= x < NBUF ==> !Caches(buf[x], n) && buf[x].refcnt != 0))
      ensures IsBuf(b) && Caches(old(buf[b]), n) ==> buf[b] == old(buf[b]).(refcnt := old(buf[b].refcnt) + 1)
      ensures IsBuf(b) && !Caches(old(buf[b]), n) ==>
                && (forall x :: 0 <= x < NBUF ==> !Caches(old(buf[x]), n))
                && old(buf[b].refcnt) == 0 && buf[b] == old(buf[b]).(dev := ROOTDEV, blockno := n, valid := false, refcnt := 1)
                && forall x :: 0 <= x < NBUF && old(buf[x].refcnt) == 0 ==> stamp[b] <= stamp[x]
    {
      b := Search(dev, n);
      if b != HEAD {
        assert At(b);
        buf := buf[b := buf[b].(refcnt := buf[b].refcnt + 1)];
        OneChanged(old(buf), buf, dirty, old(pins), pins, disk, latest, b);
      } else {
        b := Oldest();
        if b == HEAD { return -1; }
        assert At(b);
        buf := buf[b := buf[b].(dev := dev, blockno := n, valid := false, refcnt := 1)];
        OneChanged(old(buf), buf, dirty, old(pins), pins, disk, latest, b);
      }
    }

    /** acquiresleep on a buffer obtained from bget, once nobody else holds it. */
    method Lock(b: int)
      requires Valid() && IsBuf(b) && !buf[b].locked && pins[b] < buf[b].refcnt
      modifies this`buf
      ensures Valid() && |old(buf)| == NBUF && OnlyBuf(b) && buf[b] == old(buf[b]).(locked := true)
    {
      assert At(b);
      buf := buf[b := buf[b].(locked := true)];
      OneChanged(old(buf), buf, dirty, old(pins), pins, disk, latest, b);
    }

    /** The second half of bread: fill the locked buffer from the disk if need be. */
    method ReadIn(b: int)
      requires Valid() && IsBuf(b) && buf[b].locked && buf[b].dev == ROOTDEV
      modifies this`buf
      ensures Valid() && |old(buf)| == NBUF && OnlyBuf(b)
      ensures 0 <= buf[b].blockno < |latest| && buf[b] == old(buf[b]).(valid := true, data := latest[buf[b].blockno])
    {
      assert At(b);
      if !buf[b].valid {
        buf := buf[b := buf[b].(data := disk[buf[b].blockno], valid := true)];
        OneChanged(old(buf), buf, dirty, old(pins), pins, disk, latest, b);
      }
    }

    /** bread returns the block's latest contents; -1 stands for bget's panic.  If another process has the
        buffer locked, the caller has been counted as a user and waits: see Resume. */
    method Bread(dev: int, n: int) returns (b: int, waits: bool)
      requires Valid() && dev == ROOTDEV && 0 <= n < |disk|
      modifies this`buf
      ensures Valid() && |old(buf)| == NBUF && OnlyBuf(b)
      ensures b == -1 <==> old((forall x :: 0 <= x < NBUF ==> !Caches(buf[x], n) && buf[x].refcnt != 0))
      ensures waits <==> exists x :: 0 <= x < NBUF && Caches(old(buf[x]), n) && old(buf[x].locked)
      ensures b != -1 ==> IsBuf(b) && Caches(buf[b], n) && buf[b].locked && buf[b].refcnt == old(buf[b].refcnt) + 1
      ensures waits ==> b != -1 && buf[b] == old(buf[b]).(refcnt := buf[b].refcnt)
      ensures b != -1 && !waits ==> buf[b].valid && buf[b].data == latest[n]
    {
      b := Bget(dev, n);
      if b == -1 { return -1, false; }
      assert old(At(b));
      forall x | 0 <= x < NBUF && Caches(old(buf[x]), n) ensures x == b {
        assert (x < b ==> Apart(old(buf), x, b)) && (b < x ==> Apart(old(buf), b, x));
      }
      waits := buf[b].locked;
      if !waits {
        Lock(b);
        ReadIn(b);
      }
    }

    /** A process that waited in bread goes on, now that the buffer is not locked. */
    method Resume(b: int)
      requires Valid() && IsBuf(b) && !buf[b].locked && pins[b] < buf[b].refcnt && buf[b].dev == ROOTDEV
      modifies this`buf
      ensures Valid() && |old(buf)| == NBUF && OnlyBuf(b)
      ensures 0 <= buf[b].blockno < |latest| && buf[b] == old(buf[b]).(locked := true, valid := true, data := latest[buf[b].blockno])
    {
      Lock(b);
      ReadIn(b);
    }

    // ---------- contents ----------

    /** The holder of the lock changes the data. */
    method Modify(b: int, data: Block)
      requires Valid() && IsBuf(b) && buf[b].locked && buf[b].valid && buf[b].dev == ROOTDEV
      modifies this`buf, this`latest, this`dirty
      ensures Valid() && |old(buf)| == NBUF && OnlyBuf(b) && buf[b] == old(buf[b]).(data := data)
      ensures 0 <= buf[b].blockno < |old(latest)| && latest == old(latest)[buf[b].blockno := data]
      ensures |old(dirty)| == NBUF && dirty == old(dirty)[b := true]
    {
      var n := buf[b].blockno;
      assert At(b);
      buf := buf[b := buf[b].(data := data)];
      latest, dirty := latest[n := data], dirty[b := true];
      forall x | 0 <= x < NBUF ensures BufAt(buf, dirty, pins, disk, latest, x) {
        assert old(At(x));
        if x != b { assert if x < b then Apart(old(buf), x, b) else Apart(old(buf), b, x); }
      }
      forall x, y | 0 <= x < y < NBUF ensures Apart(buf, x, y) { assert Apart(old(buf), x, y); }
      forall k | 0 <= k < |disk| && disk[k] != latest[k] ensures exists x :: 0 <= x < |buf| && Caches(buf[x], k) && dirty[x] {
        if k == n { assert Caches(buf[b], k) && dirty[b]; }
        else {
          var x :| 0 <= x < |old(buf)| && Caches(old(buf)[x], k) && old(dirty)[x];
          assert Caches(buf[x], k) && dirty[x];
        }
      }
    }

    /** Write the buffer to the disk. */
    method Bwrite(b: int)
      requires Valid() && IsBuf(b) && buf[b].locked && buf[b].valid && buf[b].dev == ROOTDEV
      modifies this`disk, this`dirty
      ensures Valid() && !dirty[b] && 0 <= buf[b].blockno < |old(disk)| && disk == old(disk)[buf[b].blockno := buf[b].data]
      ensures forall x :: 0 <= x < NBUF && x != b ==> dirty[x] == old(dirty)[x]
    {
      assert At(b);
      var n := buf[b].blockno;
      disk := disk[n := buf[b].data];
      dirty := dirty[b := false];
      forall x | 0 <= x < NBUF ensures BufAt(buf, dirty, pins, disk, latest, x) {
        assert old(At(x));
        if x != b { assert if x < b then Apart(buf, x, b) else Apart(buf, b, x); }
      }
      forall k | 0 <= k < |disk| && disk[k] != latest[k] ensures exists x :: 0 <= x < |buf| && Caches(buf[x], k) && dirty[x] {
        var x :| 0 <= x < |buf| && Caches(buf[x], k) && old(dirty)[x];
        assert Caches(buf[x], k) && dirty[x];
      }
    }

    // ---------- release, pin ----------

    /** The first half of brelse, releasesleep: a buffer that was modified must have been written or pinned.  The
        buffer stays counted. */
    method Unlock(b: int)
      requires Valid() && IsBuf(b) && buf[b].locked && (dirty[b] ==> pins[b] > 0)
      modifies this`buf
      ensures Valid() && |old(buf)| == NBUF && OnlyBuf(b) && buf[b] == old(buf[b]).(locked := false)
    {
      assert At(b);
      buf := buf[b := buf[b].(locked := false)];
      OneChanged(old(buf), buf, dirty, old(pins), pins, disk, latest, b);
    }

    /** Unlinks b and links it in at the front of the list. */
    method MoveToFront(b: int)
      requires Linked(next, prev, stamp, clock) && IsBuf(b)
      modifies this`next, this`prev, this`stamp, this`clock
      ensures Linked(next, prev, stamp, clock) && next[HEAD] == b
      ensures |old(stamp)| == NBUF && stamp == old(stamp)[b := old(clock)] && clock == old(clock) + 1
    {
      MovedLinked(next, prev, stamp, clock, b);
      ghost var m := Moved(next, prev, b);
      assert LinkOk(next, prev, stamp, b);
      prev := prev[next[b] := prev[b]];
      next := next[prev[b] := next[b]];
      var first := next[HEAD];
      next, prev := next[b := first], prev[b := HEAD];
      prev := prev[first := b];
      next := next[HEAD := b];
      assert next == m.0 && prev == m.1;
      stamp, clock := stamp[b := clock], clock + 1;
    }

    /** The second half, by a user that is counted and does not hold the lock; the last one moves the buffer to the
        front of the list. */
    method Drop(b: int)
      requires Valid() && IsBuf(b) && pins[b] + (if buf[b].locked then 1 else 0) < buf[b].refcnt
      modifies this`buf, this`next, this`prev, this`stamp, this`clock
      ensures Valid() && |old(buf)| == NBUF && (forall x :: 0 <= x < NBUF && x != b ==> buf[x] == old(buf[x]))
      ensures buf[b] == old(buf[b]).(refcnt := old(buf[b].refcnt) - 1)
      ensures if buf[b].refcnt == 0 then stamp == old(stamp)[b := old(clock)] && clock == old(clock) + 1 && next[HEAD] == b
              else OnlyBuf(b)
    {
      assert At(b);
      buf := buf[b := buf[b].(refcnt := buf[b].refcnt - 1)];
      OneChanged(old(buf), buf, dirty, old(pins), pins, disk, latest, b);
      if buf[b].refcnt == 0 { MoveToFront(b); }
    }

    method Bpin(b: int)
      requires Valid() && IsBuf(b) && buf[b].locked
      modifies this`buf, this`pins
      ensures Valid() && |old(buf)| == NBUF && OnlyBuf(b) && pins == old(pins)[b := old(pins)[b] + 1]
      ensures buf[b] == old(buf[b]).(refcnt := old(buf[b].refcnt) + 1)
    {
      assert At(b);
      buf, pins := buf[b := buf[b].(refcnt := buf[b].refcnt + 1)], pins[b := pins[b] + 1];
      OneChanged(old(buf), buf, dirty, old(pins), pins, disk, latest, b);
    }

    method Bunpin(b: int)
      requires Valid() && IsBuf(b) && pins[b] > 0 && !dirty[b]
      modifies this`buf, this`pins
      ensures Valid() && |old(buf)| == NBUF && OnlyBuf(b) && pins == old(pins)[b := old(pins)[b] - 1]
      ensures buf[b] == old(buf[b]).(refcnt := old(buf[b].refcnt) - 1)
    {
      assert At(b);
      buf, pins := buf[b := buf[b].(refcnt := buf[b].refcnt - 1)], pins[b := pins[b] - 1];
      OneChanged(old(buf), buf, dirty, old(pins), pins, disk, latest, b);
    }
  }
}
