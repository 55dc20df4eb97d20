/** Every step of the driver and of the device keeps the queue's invariant. */
module VirtioSteps {
  import opened Machine
  import opened VirtioQueue

  // ---------- virtio_disk_rw: formatting and posting a chain ----------

  ghost predicate CanPost(d: Disk, h: int, i1: int, i2: int, b: int, blockno: int)
    requires Sized(d)
  {
    && Index(h) && Index(i1) && Index(i2) && h != i1 && h != i2 && i1 != i2 && d.free[h] && d.free[i1] && d.free[i2]
    && 0 <= b < |d.busy| && !d.busy[b] && 0 <= blockno < |d.image|
    && forall g :: 0 <= g < NUM && d.log.jobs[g].Job? ==> d.log.jobs[g].b != b
  }

  function Post(d: Disk, h: int, i1: int, i2: int, b: int, write: bool, blockno: int): Disk
    requires |d.free| == |d.desc| == |d.rings.avail| == |d.info| == |d.ops| == |d.log.role| == |d.log.jobs| == NUM
    requires Index(h) && Index(i1) && Index(i2) && 0 <= b < |d.busy|
  {
    d.(free := d.free[h := false][i1 := false][i2 := false],
       desc := d.desc[h := Desc(Op(h), false, true, i1)][i1 := Desc(Data(b), !write, true, i2)][i2 := Desc(Status(h), true, false, 0)],
       rings := d.rings.(avail := d.rings.avail[d.rings.availIdx % NUM := h], availIdx := (d.rings.availIdx + 1) % TWO16),
       ops := d.ops[h := Request(write, blockno * 2)],
       info := d.info[h := Info(b, 0xff)],
       busy := d.busy[b := true],
       log := d.log.(role := d.log.role[h := Member(h, 0)][i1 := Member(h, 1)][i2 := Member(h, 2)],
                     jobs := d.log.jobs[h := Job(i1, i2, b, write, blockno, |d.log.posted|, Posted)],
                     posted := d.log.posted + [h], count := d.log.count + [0]))
  }

  /** The chain at h is a request to write buffer b to block blockno, or to read the block into the buffer, and to
      report at h. */
  ghost predicate Asked(d: Disk, h: int, b: int, write: bool, blockno: int) {
    && Index(h) && |d.log.jobs| == |d.ops| == |d.desc| == NUM && d.log.jobs[h].Job?
    && d.log.jobs[h].b == b && d.log.jobs[h].write == write && d.log.jobs[h].blockno == blockno
    && d.ops[h].write == write && d.ops[h].sector == blockno * SECTORS && d.desc[h].next == d.log.jobs[h].d1
    && d.desc[h].addr == Op(h) && d.desc[h].more && !d.desc[h].write
    && Index(d.log.jobs[h].d1) && d.desc[d.log.jobs[h].d1].addr == Data(b) && d.desc[d.log.jobs[h].d1].write == !write
    && d.desc[d.log.jobs[h].d1].more && d.desc[d.log.jobs[h].d1].next == d.log.jobs[h].d2 && Index(d.log.jobs[h].d2)
    && d.desc[d.log.jobs[h].d2].addr == Status(h) && d.desc[d.log.jobs[h].d2].write && !d.desc[d.log.jobs[h].d2].more
  }

  /** The other chains are what they were. */
  ghost predicate OthersStay(d: Disk, d': Disk, h: int)
    requires Sized(d) && Sized(d')
  {
    forall g :: 0 <= g < NUM && g != h && d.log.jobs[g].Job? ==>
      && d'.log.jobs[g] == d.log.jobs[g] && d'.ops[g] == d.ops[g] && d'.info[g] == d.info[g]
      && forall x :: x in Chain(d, g) && Index(x) ==> d'.desc[x] == d.desc[x]
  }

  lemma PostedAsks(d: Disk, h: int, i1: int, i2: int, b: int, write: bool, blockno: int)
    requires Inv(d) && CanPost(d, h, i1, i2, b, blockno) && Sized(Post(d, h, i1, i2, b, write, blockno))
    ensures Asked(Post(d, h, i1, i2, b, write, blockno), h, b, write, blockno)
    ensures OthersStay(d, Post(d, h, i1, i2, b, write, blockno), h)
  {
    var d' := Post(d, h, i1, i2, b, write, blockno);
    assert RoleOk(d, h) && RoleOk(d, i1) && RoleOk(d, i2);
    forall g | 0 <= g < NUM && g != h && d.log.jobs[g].Job?
      ensures d'.log.jobs[g] == d.log.jobs[g] && d'.ops[g] == d.ops[g] && d'.info[g] == d.info[g]
      ensures forall x :: x in Chain(d, g) && Index(x) ==> d'.desc[x] == d.desc[x]
    {
      assert ChainOk(d, g);
    }
  }

  lemma PostSized(d: Disk, h: int, i1: int, i2: int, b: int, write: bool, blockno: int)
    requires Sized(d) && CanPost(d, h, i1, i2, b, blockno)
    ensures Sized(Post(d, h, i1, i2, b, write, blockno))
  {
    NextIndex(|d.log.posted|);
  }

  lemma PostRole(d: Disk, h: int, i1: int, i2: int, b: int, write: bool, blockno: int, i: int, d': Disk)
    requires Sized(d) && CanPost(d, h, i1, i2, b, blockno) && d' == Post(d, h, i1, i2, b, write, blockno) && Sized(d')
    requires Index(i) && RoleOk(d, i) && d.log.jobs[h].Idle?
    ensures RoleOk(d', i)
  {}

  lemma PostChain(d: Disk, h: int, i1: int, i2: int, b: int, write: bool, blockno: int, i: int, d': Disk)
    requires Sized(d) && CanPost(d, h, i1, i2, b, blockno) && d' == Post(d, h, i1, i2, b, write, blockno) && Sized(d')
    requires Index(i) && ChainOk(d, i) && RoleOk(d, h) && RoleOk(d, i1) && RoleOk(d, i2)
    ensures ChainOk(d', i)
  {}

  lemma PostJob(d: Disk, h: int, i1: int, i2: int, b: int, write: bool, blockno: int, i: int, d': Disk)
    requires Sized(d) && CanPost(d, h, i1, i2, b, blockno) && d' == Post(d, h, i1, i2, b, write, blockno) && Sized(d')
    requires Index(i) && JobOk(d, i) && d.log.jobs[h].Idle?
    ensures JobOk(d', i)
  {}

  lemma PostAvail(d: Disk, h: int, i1: int, i2: int, b: int, write: bool, blockno: int, k: int, d': Disk)
    requires Sized(d) && CanPost(d, h, i1, i2, b, blockno) && d' == Post(d, h, i1, i2, b, write, blockno) && Sized(d')
    requires d.log.jobs[h].Idle? && |d.log.posted| <= d.log.taken + 2
    requires d.log.taken <= k < |d'.log.posted| && (k < |d.log.posted| ==> AvailOk(d, k))
    ensures AvailOk(d', k)
  {
    Mod8(|d.log.posted|);
    if k < |d.log.posted| { Apart(k, |d.log.posted|); }
  }

  lemma PostUsed(d: Disk, h: int, i1: int, i2: int, b: int, write: bool, blockno: int, k: int, d': Disk)
    requires Sized(d) && CanPost(d, h, i1, i2, b, blockno) && d' == Post(d, h, i1, i2, b, write, blockno) && Sized(d')
    requires d.log.jobs[h].Idle? && d.log.consumed <= k < |d.log.returned| && UsedOk(d, k)
    ensures UsedOk(d', k)
  {}

  lemma PostCount(d: Disk, h: int, i1: int, i2: int, b: int, write: bool, blockno: int, k: int, d': Disk)
    requires Sized(d) && CanPost(d, h, i1, i2, b, blockno) && d' == Post(d, h, i1, i2, b, write, blockno) && Sized(d')
    requires d.log.jobs[h].Idle? && 0 <= k < |d'.log.posted| && (k < |d.log.posted| ==> CountOk(d, k))
    ensures CountOk(d', k)
  {}

  lemma PostChains(d: Disk, h: int, i1: int, i2: int, b: int, write: bool, blockno: int, d': Disk)
    requires Inv(d) && CanPost(d, h, i1, i2, b, blockno) && d' == Post(d, h, i1, i2, b, write, blockno) && Sized(d')
    ensures d.log.jobs[h].Idle? && forall i :: 0 <= i < NUM ==> RoleOk(d', i) && ChainOk(d', i)
  {
    assert RoleOk(d, h) && RoleOk(d, i1) && RoleOk(d, i2) && ChainOk(d, h);
    forall i | 0 <= i < NUM ensures RoleOk(d', i) && ChainOk(d', i) {
      assert RoleOk(d, i) && ChainOk(d, i);
      PostRole(d, h, i1, i2, b, write, blockno, i, d');
      PostChain(d, h, i1, i2, b, write, blockno, i, d');
    }
  }

  lemma PostJobs(d: Disk, h: int, i1: int, i2: int, b: int, write: bool, blockno: int, d': Disk)
    requires Inv(d) && CanPost(d, h, i1, i2, b, blockno) && d' == Post(d, h, i1, i2, b, write, blockno) && Sized(d') && d.log.jobs[h].Idle?
    ensures forall i :: 0 <= i < NUM ==> JobOk(d', i)
    ensures forall e, g :: 0 <= e < NUM && 0 <= g < NUM ==> BuffersOk(d', e, g)
  {
    forall i | 0 <= i < NUM ensures JobOk(d', i) {
      assert JobOk(d, i);
      PostJob(d, h, i1, i2, b, write, blockno, i, d');
    }
    forall e, g | 0 <= e < NUM && 0 <= g < NUM ensures BuffersOk(d', e, g) { assert BuffersOk(d, e, g); }
  }

  lemma PostInv(d: Disk, h: int, i1: int, i2: int, b: int, write: bool, blockno: int)
    requires Inv(d) && CanPost(d, h, i1, i2, b, blockno)
    ensures Inv(Post(d, h, i1, i2, b, write, blockno))
  {
    var d' := Post(d, h, i1, i2, b, write, blockno);
    RingsShort(d);
    PostSized(d, h, i1, i2, b, write, blockno);
    PostChains(d, h, i1, i2, b, write, blockno, d');
    PostJobs(d, h, i1, i2, b, write, blockno, d');
    forall k | d'.log.taken <= k < |d'.log.posted| ensures AvailOk(d', k) { PostAvail(d, h, i1, i2, b, write, blockno, k, d'); }
    forall k | d'.log.consumed <= k < |d'.log.returned| ensures UsedOk(d', k) { PostUsed(d, h, i1, i2, b, write, blockno, k, d'); }
    forall k | 0 <= k < |d'.log.posted| ensures CountOk(d', k) { PostCount(d, h, i1, i2, b, write, blockno, k, d'); }
  }

  // ---------- the device ----------

  function SetPhase(l: Log, h: int, p: Phase): Log
    requires |l.jobs| == NUM && Index(h) && l.jobs[h].Job?
  { l.(jobs := l.jobs[h := l.jobs[h].(phase := p)]) }

  /** The head that the device finds next in the avail ring. */
  function NextHead(d: Disk): int
    requires |d.rings.avail| == NUM && d.log.taken >= 0
  { d.rings.avail[(d.log.taken % TWO16) % NUM] }

  function Take(d: Disk): Disk
    requires |d.rings.avail| == NUM && d.log.taken >= 0 && |d.log.jobs| == NUM && Index(NextHead(d)) && d.log.jobs[NextHead(d)].Job?
  { d.(log := SetPhase(d.log, NextHead(d), Taken).(taken := d.log.taken + 1)) }

  /** The device sees a new head exactly if there is one, and it is the right one. */
  lemma NextHeadOk(d: Disk)
    requires Inv(d)
    ensures d.log.taken % TWO16 != d.rings.availIdx <==> d.log.taken < |d.log.posted|
    ensures d.log.taken < |d.log.posted| ==> NextHead(d) == d.log.posted[d.log.taken] && Index(NextHead(d)) && d.log.jobs[NextHead(d)].Job? && d.log.jobs[NextHead(d)].phase == Posted
  {
    RingsShort(d);
    Indices(d.log.taken, |d.log.posted|);
    Mod8(d.log.taken);
    if d.log.taken < |d.log.posted| { assert AvailOk(d, d.log.taken); }
  }

  lemma TakeInv(d: Disk)
    requires Inv(d) && d.log.taken < |d.log.posted|
    ensures Index(NextHead(d)) && d.log.jobs[NextHead(d)].Job? && Inv(Take(d))
  {
    NextHeadOk(d);
    var d' := Take(d);
    var h := NextHead(d);
    assert AvailOk(d, d.log.taken) && JobOk(d, h);
    forall i | 0 <= i < NUM ensures RoleOk(d', i) && ChainOk(d', i) && JobOk(d', i) {
      assert RoleOk(d, i) && ChainOk(d, i) && JobOk(d, i);
    }
    forall e, g | 0 <= e < NUM && 0 <= g < NUM ensures BuffersOk(d', e, g) { assert BuffersOk(d, e, g); }
    forall k | d'.log.taken <= k < |d'.log.posted| ensures AvailOk(d', k) { assert AvailOk(d, k); }
    forall k | d'.log.consumed <= k < |d'.log.returned| ensures UsedOk(d', k) { assert UsedOk(d, k); }
    forall r | 0 <= r < |d'.log.posted| ensures CountOk(d', r) { assert CountOk(d, r); }
  }

  /** A chain as the device follows it. */
  predicate Readable(d: Disk, h: int) {
    && |d.desc| == |d.info| == |d.ops| == |d.log.jobs| == |d.rings.used| == NUM && Index(h) && |d.data| == |d.busy|
    && d.desc[h].addr.Op? && Index(d.desc[h].addr.i) && Index(d.desc[h].next)
    && var e := d.desc[d.desc[h].next];
       e.addr.Data? && 0 <= e.addr.b < |d.data| && Index(e.next) && d.desc[e.next].addr.Status? && Index(d.desc[e.next].addr.i)
       && 0 <= d.ops[d.desc[h].addr.i].sector / 2 < |d.image|
  }

  /** The device moves one block as the request says, stores the status, and returns the head. */
  function Return(d: Disk, h: int): Disk
    requires Readable(d, h) && d.log.jobs[h].Job?
  {
    var op := d.ops[d.desc[h].addr.i];
    var e := d.desc[d.desc[h].next];
    var st := d.desc[e.next].addr.i;
    var n, b := op.sector / 2, e.addr.b;
    d.(
      image := if op.write then d.image[n := d.data[b]] else d.image,
      data := if op.write then d.data else d.data[b := d.image[n]],
      info := d.info[st := d.info[st].(status := 0)],
      rings := d.rings.(used := d.rings.used[d.rings.usedIdx % NUM := h], usedIdx := (d.rings.usedIdx + 1) % TWO16),
      log := SetPhase(d.log, h, Used(|d.log.returned|)).(returned := d.log.returned + [h]))
  }

  /** What the device does is what the caller of virtio_disk_rw asked for. */
  lemma ReturnMoves(d: Disk, h: int)
    requires Inv(d) && Index(h) && d.log.jobs[h].Job?
    ensures Readable(d, h) && 0 <= d.log.jobs[h].b < |d.data| && 0 <= d.log.jobs[h].blockno < |d.image|
    ensures var j := d.log.jobs[h];
            && Return(d, h).image == (if j.write then d.image[j.blockno := d.data[j.b]] else d.image)
            && Return(d, h).data == (if j.write then d.data else d.data[j.b := d.image[j.blockno]])
            && Return(d, h).info == d.info[h := d.info[h].(status := 0)]
  {
    assert ChainOk(d, h) && JobOk(d, h);
    assert d.log.jobs[h].blockno * 2 / 2 == d.log.jobs[h].blockno;
  }

  /** What the parts below need of the step. */
  ghost predicate Returns(d: Disk, h: int) {
    && Sized(d) && Readable(d, h) && d.log.jobs[h].Job? && d.log.jobs[h].phase == Taken && |d.log.returned| <= d.log.consumed + 2
    && |Return(d, h).data| == |d.data| && |Return(d, h).image| == |d.image|
    && Return(d, h).info == d.info[h := d.info[h].(status := 0)]
  }

  lemma ReturnSized(d: Disk, h: int)
    requires Returns(d, h)
    ensures Sized(Return(d, h))
  {
    NextIndex(|d.log.returned|);
  }

  lemma ReturnJob(d: Disk, h: int, i: int, d': Disk)
    requires Returns(d, h) && d' == Return(d, h) && Sized(d') && Index(i) && RoleOk(d, i) && ChainOk(d, i) && JobOk(d, i)
    ensures RoleOk(d', i) && ChainOk(d', i) && JobOk(d', i)
  {}

  lemma ReturnUsed(d: Disk, h: int, k: int, d': Disk)
    requires Returns(d, h) && d' == Return(d, h) && Sized(d')
    requires d.log.consumed <= k < |d'.log.returned| && (k < |d.log.returned| ==> UsedOk(d, k))
    ensures UsedOk(d', k)
  {
    Mod8(|d.log.returned|);
    if k < |d.log.returned| { Apart(k, |d.log.returned|); }
  }

  lemma ReturnAvail(d: Disk, h: int, k: int, d': Disk)
    requires Returns(d, h) && d' == Return(d, h) && Sized(d') && 0 <= k < |d.log.posted| && CountOk(d, k) && (d.log.taken <= k ==> AvailOk(d, k))
    ensures CountOk(d', k) && (d.log.taken <= k ==> AvailOk(d', k))
  {}

  lemma ReturnBuffers(d: Disk, h: int, e: int, g: int, d': Disk)
    requires Sized(d) && Sized(d') && Index(h) && d.log.jobs[h].Job? && Index(e) && Index(g) && BuffersOk(d, e, g)
    requires d'.log.jobs == d.log.jobs[h := d.log.jobs[h].(phase := Used(|d.log.returned|))]
    ensures BuffersOk(d', e, g)
  {}

  lemma ReturnInv(d: Disk, h: int)
    requires Inv(d) && Index(h) && d.log.jobs[h].Job? && d.log.jobs[h].phase == Taken
    ensures Readable(d, h) && Inv(Return(d, h))
  {
    RingsShort(d);
    ReturnMoves(d, h);
    assert Returns(d, h);
    ReturnSized(d, h);
    ReturnParts(d, h, Return(d, h));
  }

  lemma ReturnParts(d: Disk, h: int, d': Disk)
    requires Inv(d) && Returns(d, h) && d' == Return(d, h) && Sized(d')
    ensures Inv(d')
  {
    forall i | 0 <= i < NUM ensures RoleOk(d', i) && ChainOk(d', i) && JobOk(d', i) {
      assert RoleOk(d, i) && ChainOk(d, i) && JobOk(d, i);
      ReturnJob(d, h, i, d');
    }
    forall e, g | 0 <= e < NUM && 0 <= g < NUM ensures BuffersOk(d', e, g) {
      assert BuffersOk(d, e, g);
      ReturnBuffers(d, h, e, g, d');
    }
    forall k | 0 <= k < |d'.log.posted| ensures CountOk(d', k) && (d'.log.taken <= k ==> AvailOk(d', k)) {
      assert CountOk(d, k);
      ReturnAvail(d, h, k, d');
    }
    forall k | d'.log.consumed <= k < |d'.log.returned| ensures UsedOk(d', k) { ReturnUsed(d, h, k, d'); }
  }

  // ---------- virtio_disk_intr ----------

  function NextUsed(d: Disk): int
    requires |d.rings.used| == NUM && d.seenIdx >= 0
  { d.rings.used[d.seenIdx % NUM] }

  lemma NextUsedOk(d: Disk)
    requires Inv(d)
    ensures d.seenIdx != d.rings.usedIdx <==> d.log.consumed < |d.log.returned|
    ensures d.log.consumed < |d.log.returned| ==>
              var h := NextUsed(d);
              Index(h) && d.log.jobs[h].Job? && d.log.jobs[h].phase == Used(d.log.consumed) && d.info[h].status == 0 && d.info[h].b == d.log.jobs[h].b
              && 0 <= d.log.jobs[h].b < |d.busy| && d.busy[d.log.jobs[h].b]
              && 0 <= d.log.jobs[h].req < |d.log.count| && d.log.count[d.log.jobs[h].req] == 0
  {
    RingsShort(d);
    Indices(d.log.consumed, |d.log.returned|);
    Mod8(d.log.consumed);
    if d.log.consumed < |d.log.returned| {
      assert UsedOk(d, d.log.consumed) && JobOk(d, NextUsed(d));
      assert CountOk(d, d.log.jobs[NextUsed(d)].req);
    }
  }

  function Consume(d: Disk): Disk
    requires |d.rings.used| == |d.info| == |d.log.jobs| == NUM && d.seenIdx >= 0 && Index(NextUsed(d)) && d.log.jobs[NextUsed(d)].Job?
    requires 0 <= d.info[NextUsed(d)].b < |d.busy| && 0 <= d.log.jobs[NextUsed(d)].req < |d.log.count|
  {
    var h := NextUsed(d);
    var r := d.log.jobs[h].req;
    d.(busy := d.busy[d.info[h].b := false], seenIdx := (d.seenIdx + 1) % TWO16,
       log := SetPhase(d.log, h, Completed).(consumed := d.log.consumed + 1, count := d.log.count[r := d.log.count[r] + 1]))
  }

  ghost predicate CanConsume(d: Disk)
    requires Sized(d)
  {
    && d.log.consumed < |d.log.returned| && NextUsed(d) == d.log.returned[d.log.consumed]
    && var h := NextUsed(d);
       Index(h) && d.log.jobs[h].Job? && d.log.jobs[h].phase == Used(d.log.consumed) && d.info[h].b == d.log.jobs[h].b
       && 0 <= d.log.jobs[h].b < |d.busy| && 0 <= d.log.jobs[h].req < |d.log.count| && d.log.count[d.log.jobs[h].req] == 0
       && d.log.posted[d.log.jobs[h].req] == h
  }

  lemma ConsumeSized(d: Disk)
    requires Sized(d) && CanConsume(d)
    ensures Sized(Consume(d))
  {
    NextIndex(d.log.consumed);
  }

  lemma ConsumeJob(d: Disk, i: int, d': Disk)
    requires Sized(d) && CanConsume(d) && d' == Consume(d) && Sized(d') && Index(i)
    requires RoleOk(d, i) && ChainOk(d, i) && JobOk(d, i) && JobOk(d, NextUsed(d)) && BuffersOk(d, i, NextUsed(d))
    ensures RoleOk(d', i) && ChainOk(d', i) && JobOk(d', i)
  {}

  lemma ConsumeRings(d: Disk, k: int, d': Disk)
    requires Sized(d) && CanConsume(d) && d' == Consume(d) && Sized(d')
    requires d.log.taken <= k < |d.log.posted| ==> AvailOk(d, k)
    requires d.log.consumed <= k < |d.log.returned| ==> UsedOk(d, k)
    requires 0 <= k < |d.log.posted| ==> CountOk(d, k)
    ensures d'.log.taken <= k < |d'.log.posted| ==> AvailOk(d', k)
    ensures d'.log.consumed <= k < |d'.log.returned| ==> UsedOk(d', k)
    ensures 0 <= k < |d'.log.posted| ==> CountOk(d', k)
  {}

  lemma ConsumeParts(d: Disk, d': Disk)
    requires Inv(d) && CanConsume(d) && d' == Consume(d) && Sized(d')
    ensures Inv(d')
  {
    var h := NextUsed(d);
    assert JobOk(d, h);
    forall i | 0 <= i < NUM ensures RoleOk(d', i) && ChainOk(d', i) && JobOk(d', i) {
      assert RoleOk(d, i) && ChainOk(d, i) && JobOk(d, i) && BuffersOk(d, i, h);
      ConsumeJob(d, i, d');
    }
    forall e, g | 0 <= e < NUM && 0 <= g < NUM ensures BuffersOk(d', e, g) { assert BuffersOk(d, e, g); }
    forall k ensures (d'.log.taken <= k < |d'.log.posted| ==> AvailOk(d', k)) && (d'.log.consumed <= k < |d'.log.returned| ==> UsedOk(d', k))
                     && (0 <= k < |d'.log.posted| ==> CountOk(d', k)) {
      ConsumeRings(d, k, d');
    }
  }

  lemma ConsumeInv(d: Disk)
    requires Inv(d) && d.log.consumed < |d.log.returned|
    ensures CanConsume(d) && Inv(Consume(d))
  {
    NextUsedOk(d);
    Mod8(d.log.consumed);
    assert UsedOk(d, d.log.consumed) && JobOk(d, NextUsed(d));
    ConsumeSized(d);
    ConsumeParts(d, Consume(d));
  }

  // ---------- the end of virtio_disk_rw ----------

  function Finish(d: Disk, h: int): Disk
    requires |d.free| == |d.desc| == |d.info| == |d.log.role| == |d.log.jobs| == NUM && Index(h) && d.log.jobs[h].Job?
    requires Index(d.log.jobs[h].d1) && Index(d.log.jobs[h].d2)
  {
    var d1, d2 := d.log.jobs[h].d1, d.log.jobs[h].d2;
    d.(info := d.info[h := d.info[h].(b := 0)],
       free := d.free[h := true][d1 := true][d2 := true], desc := d.desc[h := EMPTY][d1 := EMPTY][d2 := EMPTY],
       log := d.log.(role := d.log.role[h := Unused][d1 := Unused][d2 := Unused], jobs := d.log.jobs[h := Idle]))
  }

  lemma FinishInv(d: Disk, h: int)
    requires Inv(d) && Index(h) && d.log.jobs[h].Job? && d.log.jobs[h].phase == Completed
    ensures Index(d.log.jobs[h].d1) && Index(d.log.jobs[h].d2) && Inv(Finish(d, h))
  {
    assert ChainOk(d, h) && JobOk(d, h);
    var d' := Finish(d, h);
    forall i | 0 <= i < NUM ensures RoleOk(d', i) && ChainOk(d', i) && JobOk(d', i) {
      assert RoleOk(d, i) && ChainOk(d, i) && JobOk(d, i);
    }
    forall e, g | 0 <= e < NUM && 0 <= g < NUM ensures BuffersOk(d', e, g) { assert BuffersOk(d, e, g); }
    forall k | d'.log.taken <= k < |d'.log.posted| ensures AvailOk(d', k) { assert AvailOk(d, k); }
    forall k | d'.log.consumed <= k < |d'.log.returned| ensures UsedOk(d', k) { assert UsedOk(d, k); }
    forall r | 0 <= r < |d'.log.posted| ensures CountOk(d', r) { assert CountOk(d, r); }
  }
}
