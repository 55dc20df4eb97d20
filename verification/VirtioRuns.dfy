/** What holds in every run of drivers, interrupts and the device. */
module VirtioRuns {
  import opened Machine
  import opened VirtioQueue
  import opened VirtioSteps

  datatype Step =
    | Start(h: int, i1: int, i2: int, b: int, write: bool, blockno: int)
    | DeviceTakes
    | DeviceReturns(h: int)
    | Interrupt
    | End(h: int)

  /** Each step is enabled by what its actor looks at: the free descriptors, the two ring
      indices, b->disk. */
  ghost predicate Next(d: Disk, s: Step, d': Disk) {
    && Sized(d)
    && match s
       case Start(h, i1, i2, b, write, blockno) =>
         CanPost(d, h, i1, i2, b, blockno) && d' == Post(d, h, i1, i2, b, write, blockno)
       case DeviceTakes =>
         && d.log.taken % TWO16 != d.rings.availIdx
         && (Index(NextHead(d)) && d.log.jobs[NextHead(d)].Job? ==> d' == Take(d))
       case DeviceReturns(h) =>
         && Index(h) && d.log.jobs[h].Job? && d.log.jobs[h].phase == Taken
         && (Readable(d, h) ==> d' == Return(d, h))
       case Interrupt =>
         d.seenIdx != d.rings.usedIdx && (CanConsume(d) ==> d' == Consume(d))
       case End(h) =>
         && Index(h) && d.log.jobs[h].Job? && 0 <= d.log.jobs[h].b < |d.busy| && !d.busy[d.log.jobs[h].b]
         && (Index(d.log.jobs[h].d1) && Index(d.log.jobs[h].d2) ==> d' == Finish(d, h))
  }

  ghost predicate IsRun(run: seq<Disk>, steps: seq<Step>) {
    && |run| == |steps| + 1 && Inv(run[0]) && run[0].log.posted == []
    && forall n :: 0 <= n < |steps| ==> Follows(run, steps, n)
  }

  /** Step n of the run is one of the system's. */
  ghost predicate Follows(run: seq<Disk>, steps: seq<Step>, n: int)
    requires 0 <= n < |steps| && |run| == |steps| + 1
  { Next(run[n], steps[n], run[n + 1]) }

  lemma NextInv(d: Disk, s: Step, d': Disk)
    requires Inv(d) && Next(d, s, d')
    ensures Inv(d')
  {
    match s
    case Start(h, i1, i2, b, write, blockno) => PostInv(d, h, i1, i2, b, write, blockno);
    case DeviceTakes => NextHeadOk(d); TakeInv(d);
    case DeviceReturns(h) => ReturnInv(d, h);
    case Interrupt => NextUsedOk(d); ConsumeInv(d);
    case End(h) => assert JobOk(d, h); FinishInv(d, h);
  }

  lemma {:induction false} RunInv(run: seq<Disk>, steps: seq<Step>, n: nat)
    requires IsRun(run, steps) && n < |run|
    ensures Inv(run[n])
  {
    if n > 0 {
      var m := n - 1;
      RunInv(run, steps, m);
      assert Follows(run, steps, m);
      NextInv(run[m], steps[m], run[m + 1]);
    }
  }

  /** Every descriptor is free or in one chain of three, and there are at most two chains. */
  lemma Partition(run: seq<Disk>, steps: seq<Step>, n: nat, i: int)
    requires IsRun(run, steps) && n < |run| && Index(i)
    ensures Inv(run[n])
    ensures !run[n].free[i] <==> exists h :: Index(h) && run[n].log.jobs[h].Job? && i in Chain(run[n], h)
    ensures forall g, h :: Index(g) && Index(h) && run[n].log.jobs[g].Job? && run[n].log.jobs[h].Job? && i in Chain(run[n], g) && i in Chain(run[n], h) ==> g == h
    ensures forall a, b, c :: 0 <= a < b < c < NUM ==> !(run[n].log.jobs[a].Job? && run[n].log.jobs[b].Job? && run[n].log.jobs[c].Job?)
  {
    RunInv(run, steps, n);
    var d := run[n];
    assert RoleOk(d, i);
    if !d.free[i] { assert i in Chain(d, d.log.role[i].h); }
    forall h | Index(h) && d.log.jobs[h].Job? && i in Chain(d, h) ensures !d.free[i] && d.log.role[i].h == h {
      assert ChainOk(d, h);
    }
    forall a, b, c | 0 <= a < b < c < NUM ensures !(d.log.jobs[a].Job? && d.log.jobs[b].Job? && d.log.jobs[c].Job?) {
      if d.log.jobs[a].Job? && d.log.jobs[b].Job? { AtMostTwo(d, a, b, c); }
    }
  }

  /** No ring entry is overwritten before it is read. */
  lemma NoOverwrite(run: seq<Disk>, steps: seq<Step>, n: nat, k: int)
    requires IsRun(run, steps) && n < |run|
    ensures Inv(run[n])
    ensures run[n].log.taken <= k < |run[n].log.posted| ==> run[n].rings.avail[(k % TWO16) % NUM] == run[n].log.posted[k]
    ensures run[n].log.consumed <= k < |run[n].log.returned| ==> run[n].rings.used[(k % TWO16) % NUM] == run[n].log.returned[k]
  {
    RunInv(run, steps, n);
    Mod8(k);
    if run[n].log.taken <= k < |run[n].log.posted| { assert AvailOk(run[n], k); }
    if run[n].log.consumed <= k < |run[n].log.returned| { assert UsedOk(run[n], k); }
  }

  /** No request is completed twice; when its caller goes on, it has been completed. */
  lemma CompletedOnce(run: seq<Disk>, steps: seq<Step>, n: nat, r: int)
    requires IsRun(run, steps) && n < |run| && 0 <= r < |run[n].log.posted|
    ensures Inv(run[n]) && 0 <= run[n].log.count[r] <= 1
    ensures n < |steps| && steps[n].End? ==>
              var h := steps[n].h;
              Index(h) && run[n].log.jobs[h].Job? && 0 <= run[n].log.jobs[h].req < |run[n].log.count| && run[n].log.count[run[n].log.jobs[h].req] == 1
  {
    RunInv(run, steps, n);
    var d := run[n];
    assert CountOk(d, r);
    if n < |steps| && steps[n].End? {
      assert Follows(run, steps, n);
      assert JobOk(d, steps[n].h);
      assert CountOk(d, d.log.jobs[steps[n].h].req);
    }
  }

  /** virtio_disk_intr finds status 0, and free_chain three descriptors that are in use. */
  lemma NoPanic(run: seq<Disk>, steps: seq<Step>, n: nat)
    requires IsRun(run, steps) && n < |steps|
    ensures Inv(run[n])
    ensures steps[n].Interrupt? ==> CanConsume(run[n]) && run[n].info[NextUsed(run[n])].status == 0
    ensures steps[n].End? ==>
              var h := steps[n].h;
              && Index(h) && run[n].log.jobs[h].Job?
              && forall i :: i in Chain(run[n], h) ==> Index(i) && !run[n].free[i]
  {
    RunInv(run, steps, n);
    var d := run[n];
    assert Follows(run, steps, n);
    NextUsedOk(d);
    if steps[n].Interrupt? { ConsumeInv(d); }
    if steps[n].End? {
      var h := steps[n].h;
      assert ChainOk(d, h);
      forall i | i in Chain(d, h) ensures Index(i) && !d.free[i] { assert RoleOk(d, i); }
    }
  }

  // ---------- what a call of virtio_disk_rw does ----------

  /** The request at h is this one, in whatever phase. */
  ghost predicate Under(d: Disk, h: int, b: int, write: bool, blockno: int) {
    && Sized(d) && Index(h) && d.log.jobs[h].Job?
    && d.log.jobs[h].b == b && d.log.jobs[h].write == write && d.log.jobs[h].blockno == blockno
  }

  predicate Done(p: Phase) { p.Used? || p.Completed? }

  /** Until its caller goes on, a request stays what it is; once returned it is not returned again, and before
      that nothing touches its buffer. */
  lemma UnderStep(d: Disk, s: Step, d': Disk, h: int, b: int, write: bool, blockno: int)
    requires Inv(d) && Next(d, s, d') && Inv(d') && Under(d, h, b, write, blockno) && s != End(h)
    ensures Under(d', h, b, write, blockno)
    ensures Done(d'.log.jobs[h].phase) <==> Done(d.log.jobs[h].phase) || s == DeviceReturns(h)
    ensures s == DeviceReturns(h) ==> !Done(d.log.jobs[h].phase)
    ensures 0 <= b < |d.data| == |d'.data| && (s != DeviceReturns(h) ==> d'.data[b] == d.data[b])
  {
    assert ChainOk(d, h) && RoleOk(d, h) && JobOk(d, h);
    match s
    case Start(g, i1, i2, b1, w1, n1) =>
    case DeviceTakes => NextHeadOk(d);
    case DeviceReturns(g) =>
      ReturnMoves(d, g);
      assert BuffersOk(d, g, h);
    case Interrupt =>
      NextUsedOk(d);
      ConsumeInv(d);
    case End(g) =>
      assert JobOk(d, g) && ChainOk(d, g);
  }

  ghost predicate NoEnd(steps: seq<Step>, h: int, m: nat, n: nat) { forall k :: m <= k < n && k < |steps| ==> steps[k] != End(h) }

  ghost predicate NoReturn(steps: seq<Step>, h: int, m: nat, n: nat) { forall k :: m <= k < n && k < |steps| ==> steps[k] != DeviceReturns(h) }

  lemma {:induction false} StaysUnder(run: seq<Disk>, steps: seq<Step>, m: nat, n: nat, s: Step)
    requires IsRun(run, steps) && m < n < |run| && steps[m] == s && s.Start? && NoEnd(steps, s.h, m + 1, n)
    ensures Inv(run[n]) && Under(run[n], s.h, s.b, s.write, s.blockno)
    ensures !Done(run[n].log.jobs[s.h].phase) <==> NoReturn(steps, s.h, m + 1, n)
    ensures 0 <= s.b < |run[n].data| == |run[m].data|
    ensures NoReturn(steps, s.h, m + 1, n) ==> run[n].data[s.b] == run[m].data[s.b]
    decreases n
  {
    RunInv(run, steps, n);
    var k := n - 1;
    assert Follows(run, steps, k);
    if k > m {
      StaysUnder(run, steps, m, k, s);
      UnderStep(run[k], steps[k], run[n], s.h, s.b, s.write, s.blockno);
    } else {
      RunInv(run, steps, m);
    }
  }

  /** The device's answer to a call does what the call asks for. */
  lemma Answered(run: seq<Disk>, steps: seq<Step>, m: nat, n: nat, h: int, i1: int, i2: int, b: int, write: bool, blockno: int)
    requires IsRun(run, steps) && m < n < |steps| && steps[m] == Start(h, i1, i2, b, write, blockno)
    requires NoEnd(steps, h, m + 1, n) && steps[n] == DeviceReturns(h)
    ensures 0 <= b < |run[n].data| == |run[m].data| && 0 <= blockno < |run[n].image| && NoReturn(steps, h, m + 1, n)
    ensures write ==> run[n + 1].image == run[n].image[blockno := run[m].data[b]] && run[n + 1].data == run[n].data
    ensures !write ==> run[n + 1].data == run[n].data[b := run[n].image[blockno]] && run[n + 1].image == run[n].image
  {
    StaysUnder(run, steps, m, n, steps[m]);
    assert Follows(run, steps, n);
    ReturnMoves(run[n], h);
  }

  /** Steps other than the device's returns move no data. */
  lemma DataMoves(run: seq<Disk>, steps: seq<Step>, n: nat)
    requires IsRun(run, steps) && n < |steps| && !steps[n].DeviceReturns?
    ensures run[n + 1].data == run[n].data && run[n + 1].image == run[n].image
  {
    RunInv(run, steps, n);
    assert Follows(run, steps, n);
    NextHeadOk(run[n]);
    NextUsedOk(run[n]);
    match steps[n]
    case Interrupt => ConsumeInv(run[n]);
    case End(h) => assert ChainOk(run[n], h);
    case _ =>
  }

  lemma {:induction false} AfterReturn(run: seq<Disk>, steps: seq<Step>, m: nat, k: nat, n: nat, s: Step)
    requires IsRun(run, steps) && m < k < n < |run| && steps[m] == s && s.Start? && NoEnd(steps, s.h, m + 1, n) && steps[k] == DeviceReturns(s.h)
    ensures NoReturn(steps, s.h, k + 1, n) && 0 <= s.b < |run[n].data| == |run[k + 1].data| && run[n].data[s.b] == run[k + 1].data[s.b]
    decreases n
  {
    StaysUnder(run, steps, m, n, s);
    var j := n - 1;
    if j > k {
      AfterReturn(run, steps, m, k, j, s);
      StaysUnder(run, steps, m, j, s);
      assert Follows(run, steps, j);
      assert !NoReturn(steps, s.h, m + 1, j);
      UnderStep(run[j], steps[j], run[n], s.h, s.b, s.write, s.blockno);
    }
  }

  /** A whole call: between the start and the end of virtio_disk_rw(b, write) for a block the device answers once.
      Then a write has put the buffer, as it was at the start, into the block; a read leaves in the buffer what the
      block was when the device answered. */
  lemma Transferred(run: seq<Disk>, steps: seq<Step>, m: nat, n: nat, h: int, i1: int, i2: int, b: int, write: bool, blockno: int) returns (k: nat)
    requires IsRun(run, steps) && m < n < |steps| && steps[m] == Start(h, i1, i2, b, write, blockno)
    requires steps[n] == End(h) && NoEnd(steps, h, m + 1, n)
    ensures m < k < n && steps[k] == DeviceReturns(h) && NoReturn(steps, h, m + 1, k) && NoReturn(steps, h, k + 1, n)
    ensures 0 <= b < |run[n].data| == |run[m].data| && 0 <= blockno < |run[k].image| == |run[k + 1].image|
    ensures write ==> run[k + 1].image == run[k].image[blockno := run[m].data[b]] && run[n].data[b] == run[m].data[b]
    ensures !write ==> run[n].data[b] == run[k].image[blockno]
  {
    StaysUnder(run, steps, m, n, steps[m]);
    assert Follows(run, steps, n);
    assert JobOk(run[n], h);
    k :| m + 1 <= k < n && k < |steps| && steps[k] == DeviceReturns(h);
    Answered(run, steps, m, k, h, i1, i2, b, write, blockno);
    StaysUnder(run, steps, m, k, steps[m]);
    AfterReturn(run, steps, m, k, n, steps[m]);
  }
}
