/** The virtqueue of kernel/virtio_disk.c and its device, as a value (sections 2.6 and
    5.2 of VIRTIO 1.1).

    Steps of the driver happen under vdisk_lock.  The device takes any head that has been
    made available, works on any number of requests at once, and returns each head once,
    in any order, with status 0. */
module VirtioQueue {
  import opened Machine

  const NUM := 8
  const SECTORS := 2      // BSIZE / 512

  /** What a descriptor's address field points to. */
  datatype Addr = Nowhere | Op(i: int) | Data(b: int) | Status(i: int)

  datatype Desc = Desc(addr: Addr, write: bool, more: bool, next: int)

  const EMPTY := Desc(Nowhere, false, false, 0)

  datatype Info = Info(b: int, status: int)

  datatype Request = Request(write: bool, sector: int)

  /** How far a request has come: in the avail ring, with the device, entry k of all that was
      ever used, or seen by the interrupt handler. */
  datatype Phase = Posted | Taken | Used(k: int) | Completed

  /** The request of a chain: its other two descriptors, its buffer, and its number among all
      requests ever posted. */
  datatype Job = Idle | Job(d1: int, d2: int, b: int, write: bool, blockno: int, req: int, phase: Phase)

  /** Position pos of the chain that starts at h. */
  datatype Role = Unused | Member(h: int, pos: int)

  datatype Rings = Rings(avail: seq<int>, availIdx: int, used: seq<int>, usedIdx: int)

  /** posted and returned list all heads ever put in the two rings; the device has taken the
      first `taken`, the driver consumed the first `consumed`.  count[r] is how often request r
      was completed. */
  datatype Log = Log(role: seq<Role>, jobs: seq<Job>, posted: seq<int>, taken: int, returned: seq<int>, consumed: int, count: seq<int>)

  /** seenIdx is the driver's used_idx; log is there for the proof only. */
  datatype Disk = Disk(
    free: seq<bool>, desc: seq<Desc>, rings: Rings, seenIdx: int, info: seq<Info>, ops: seq<Request>,
    busy: seq<bool>, data: seq<seq<int>>, image: seq<seq<int>>, log: Log)

  predicate Index(i: int) { 0 <= i < NUM }

  ghost predicate Sized(d: Disk) {
    && |d.free| == |d.desc| == |d.rings.avail| == |d.rings.used| == |d.info| == |d.ops| == |d.log.role| == |d.log.jobs| == NUM
    && |d.busy| == |d.data|
    && 0 <= d.log.taken <= |d.log.posted| == |d.log.count| && 0 <= d.log.consumed <= |d.log.returned|
    && d.rings.availIdx == |d.log.posted| % TWO16 && d.rings.usedIdx == |d.log.returned| % TWO16 && d.seenIdx == d.log.consumed % TWO16
  }

  function Part(j: Job, h: int, pos: int): int
    requires j.Job?
  { if pos == 0 then h else if pos == 1 then j.d1 else j.d2 }

  /** A descriptor is free, or in exactly one chain at one position. */
  ghost predicate RoleOk(d: Disk, i: int)
    requires Sized(d) && Index(i)
  {
    && (d.free[i] <==> d.log.role[i] == Unused)
    && (d.free[i] ==> d.desc[i] == EMPTY)
    && (d.log.role[i].Member? ==>
          var h, pos := d.log.role[i].h, d.log.role[i].pos;
          Index(h) && 0 <= pos < 3 && d.log.jobs[h].Job? && Part(d.log.jobs[h], h, pos) == i)
  }

  ghost predicate ChainOk(d: Disk, h: int)
    requires Sized(d) && Index(h)
  {
    d.log.jobs[h].Job? ==>
      var j := d.log.jobs[h];
      && Index(j.d1) && Index(j.d2)
      && d.log.role[h] == Member(h, 0) && d.log.role[j.d1] == Member(h, 1) && d.log.role[j.d2] == Member(h, 2)
      && d.desc[h] == Desc(Op(h), false, true, j.d1)
      && d.desc[j.d1] == Desc(Data(j.b), !j.write, true, j.d2)
      && d.desc[j.d2] == Desc(Status(h), true, false, 0)
  }

  ghost predicate JobOk(d: Disk, h: int)
    requires Sized(d) && Index(h)
  {
    d.log.jobs[h].Job? ==>
      var j := d.log.jobs[h];
      && 0 <= j.b < |d.busy| && 0 <= j.blockno < |d.image|
      && d.ops[h] == Request(j.write, j.blockno * 2) && d.info[h].b == j.b
      && d.busy[j.b] == (j.phase != Completed)
      && (j.phase.Used? || j.phase.Completed? ==> d.info[h].status == 0)
      && 0 <= j.req < |d.log.posted| && d.log.posted[j.req] == h
      && (j.phase == Posted <==> d.log.taken <= j.req)
      && (j.phase.Used? ==> d.log.consumed <= j.phase.k < |d.log.returned| && d.log.returned[j.phase.k] == h)
  }

  ghost predicate BuffersOk(d: Disk, g: int, h: int)
    requires Sized(d) && Index(g) && Index(h)
  { g != h && d.log.jobs[g].Job? && d.log.jobs[h].Job? ==> d.log.jobs[g].b != d.log.jobs[h].b }

  ghost predicate AvailOk(d: Disk, k: int)
    requires Sized(d) && d.log.taken <= k < |d.log.posted|
  {
    var h := d.log.posted[k];
    Index(h) && d.log.jobs[h].Job? && d.log.jobs[h].req == k && d.log.jobs[h].phase == Posted && d.rings.avail[k % NUM] == h
  }

  ghost predicate UsedOk(d: Disk, k: int)
    requires Sized(d) && d.log.consumed <= k < |d.log.returned|
  {
    var h := d.log.returned[k];
    Index(h) && d.log.jobs[h].Job? && d.log.jobs[h].phase == Used(k) && d.rings.used[k % NUM] == h
  }

  /** Request r has been completed once, unless it is still under way. */
  ghost predicate CountOk(d: Disk, r: int)
    requires Sized(d) && 0 <= r < |d.log.posted|
  {
    var h := d.log.posted[r];
    Index(h) && d.log.count[r] == if d.log.jobs[h].Job? && d.log.jobs[h].req == r && d.log.jobs[h].phase != Completed then 0 else 1
  }

  ghost predicate Inv(d: Disk) {
    && Sized(d)
    && (forall i :: 0 <= i < NUM ==> RoleOk(d, i))
    && (forall h :: 0 <= h < NUM ==> ChainOk(d, h))
    && (forall h :: 0 <= h < NUM ==> JobOk(d, h))
    && (forall g, h :: 0 <= g < NUM && 0 <= h < NUM ==> BuffersOk(d, g, h))
    && (forall k :: d.log.taken <= k < |d.log.posted| ==> AvailOk(d, k))
    && (forall k :: d.log.consumed <= k < |d.log.returned| ==> UsedOk(d, k))
    && (forall r :: 0 <= r < |d.log.posted| ==> CountOk(d, r))
  }

  // ---------- at most two chains ----------

  lemma {:induction false} Below(s: set<int>, n: nat)
    requires forall x :: x in s ==> 0 <= x < n
    ensures |s| <= n
    decreases n
  {
    if n > 0 {
      var t := s - {n - 1};
      Below(t, n - 1);
      assert s <= t + {n - 1};
      assert |s| <= |t| + 1 by { if n - 1 in s { assert s == t + {n - 1}; } else { assert s == t; } }
    } else {
      assert forall x :: x !in s;
    }
  }

  lemma NoThree(x: set<int>, y: set<int>, z: set<int>)
    requires |x| == |y| == 3 && x !! y && (x + y) !! z && forall i :: i in x + y + z ==> Index(i)
    ensures |z| < 3
  {
    Below(x + y + z, NUM);
    assert |x + y + z| == |x + y| + |z| && |x + y| == |x| + |y|;
  }

  /** The descriptors of the chain at h. */
  function Chain(d: Disk, h: int): set<int>
    requires Index(h) && |d.log.jobs| == NUM && d.log.jobs[h].Job?
  { {h, d.log.jobs[h].d1, d.log.jobs[h].d2} }

  lemma ChainsDisjoint(d: Disk, g: int, h: int)
    requires Sized(d) && Index(g) && Index(h) && g != h && d.log.jobs[g].Job? && d.log.jobs[h].Job? && ChainOk(d, g) && ChainOk(d, h)
    ensures Chain(d, g) !! Chain(d, h)
    ensures |Chain(d, g)| == 3 && forall i :: i in Chain(d, g) ==> Index(i)
  {
    var j := d.log.jobs[g];
    assert Chain(d, g) == {g} + {j.d1} + {j.d2};
  }

  lemma AtMostTwo(d: Disk, a: int, b: int, c: int)
    requires Inv(d) && Index(a) && Index(b) && Index(c) && a != b && a != c && b != c && d.log.jobs[a].Job? && d.log.jobs[b].Job?
    ensures d.log.jobs[c].Idle?
  {
    assert ChainOk(d, a) && ChainOk(d, b) && ChainOk(d, c);
    if d.log.jobs[c].Job? {
      ChainsDisjoint(d, a, b);
      ChainsDisjoint(d, b, c);
      ChainsDisjoint(d, c, a);
      NoThree(Chain(d, a), Chain(d, b), Chain(d, c));
    }
  }

  /** So no ring slot that is still to be read can be overwritten. */
  lemma RingsShort(d: Disk)
    requires Inv(d)
    ensures |d.log.posted| - d.log.taken <= 2 && |d.log.returned| - d.log.consumed <= 2
  {
    var k, n := d.log.taken, d.log.consumed;
    if |d.log.posted| - k > 2 {
      assert AvailOk(d, k) && AvailOk(d, k + 1) && AvailOk(d, k + 2);
      AtMostTwo(d, d.log.posted[k], d.log.posted[k + 1], d.log.posted[k + 2]);
    }
    if |d.log.returned| - n > 2 {
      assert UsedOk(d, n) && UsedOk(d, n + 1) && UsedOk(d, n + 2);
      AtMostTwo(d, d.log.returned[n], d.log.returned[n + 1], d.log.returned[n + 2]);
    }
  }

  /** Nothing is pending exactly if the 16-bit indices agree. */
  lemma Indices(a: nat, b: nat)
    requires a <= b <= a + 2
    ensures a % TWO16 == b % TWO16 <==> a == b
    ensures a < b ==> (a % TWO16) % NUM != (b % TWO16) % NUM
  {
    Mod8(a);
    Mod8(b);
  }

  /** A 16-bit index that counts on. */
  lemma NextIndex(x: nat)
    ensures (x % TWO16 + 1) % TWO16 == (x + 1) % TWO16
  {}

  lemma Mod8(x: int)
    ensures (x % TWO16) % NUM == x % NUM
  {
    AddMultiple(x % TWO16, x / TWO16 * 0x2000);
    assert x == (x / TWO16 * 0x2000) * NUM + x % TWO16;
  }

  lemma AddMultiple(a: int, q: int)
    ensures (q * NUM + a) % NUM == a % NUM
  {}

  lemma Apart(a: int, b: int)
    requires a < b < a + NUM
    ensures a % NUM != b % NUM
  {}
}
