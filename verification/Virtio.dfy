/** The driver of kernel/virtio_disk.c and its device. */
module Virtio {
  import opened Machine
  import opened VirtioQueue
  import opened VirtioSteps

  /** The sum of the first n numbers. */
  function Total(burst: seq<nat>, n: nat): nat {
    if n == 0 then 0 else Total(burst, n - 1) + if n - 1 < |burst| then burst[n - 1] else 0
  }

  lemma Joined(a: seq<int>, s: seq<int>, i: nat, j: nat)
    requires i <= j <= |s|
    ensures a + s[..i] + s[i..j] == a + s[..j]
  {
    assert s[..i] + s[i..j] == s[..j];
  }

  function Capped(max: nat, n: nat): nat { if n < max then n else max }

  class Driver {
    var free: seq<bool>
    var desc: seq<Desc>
    var rings: Rings
    var seenIdx: int
    var info: seq<Info>
    var ops: seq<Request>
    var busy: seq<bool>           // b->disk of each buffer
    var data: seq<seq<int>>       // b->data
    var image: seq<seq<int>>      // the disk
    ghost var log: Log

    ghost function M(): Disk
      reads this
    { Disk(free, desc, rings, seenIdx, info, ops, busy, data, image, log) }

    ghost predicate Valid()
      reads this
    { Inv(M()) }

    /** virtio_disk_init's queue: all descriptors free, all indices 0. */
    constructor (nbuf: nat, image: seq<seq<int>>)
      ensures Valid() && busy == seq(nbuf, _ => false) && this.image == image && log.posted == []
    {
      free, desc := seq(NUM, _ => true), seq(NUM, _ => EMPTY);
      rings := Rings(seq(NUM, _ => 0), 0, seq(NUM, _ => 0), 0);
      seenIdx, info, ops := 0, seq(NUM, _ => Info(0, 0)), seq(NUM, _ => Request(false, 0));
      busy, data, this.image := seq(nbuf, _ => false), seq(nbuf, _ => []), image;
      log := Log(seq(NUM, _ => Unused), seq(NUM, _ => Idle), [], 0, [], 0, []);
    }

    /** The lowest free descriptor, or -1. */
    method AllocDesc() returns (i: int)
      requires |free| == NUM
      modifies `free
      ensures i == -1 ==> free == old(free)
      ensures i != -1 ==> Index(i) && old(free)[i] && free == old(free)[i := false]
      ensures forall x :: 0 <= x < (if i == -1 then NUM else i) ==> !old(free)[x]
    {
      i := 0;
      while i < NUM
        invariant 0 <= i <= NUM && free == old(free) && forall x :: 0 <= x < i ==> !free[x]
      {
        if free[i] {
          free := free[i := false];
          return;
        }
        i := i + 1;
      }
      return -1;
    }

    /** The requires says that neither panic is reached. */
    method FreeDesc(i: int)
      requires |free| == |desc| == NUM && Index(i) && !free[i]
      modifies `free, `desc
      ensures free == old(free)[i := true] && desc == old(desc)[i := EMPTY]
    {
      desc := desc[i := EMPTY];
      free := free[i := true];
    }

    /** Three descriptors, or nothing changed and fewer than three free. */
    method Alloc3Desc() returns (ok: bool, idx: seq<int>)
      requires |free| == |desc| == NUM && forall i :: 0 <= i < NUM && free[i] ==> desc[i] == EMPTY
      modifies `free, `desc
      ensures |idx| == 3 && desc == old(desc)
      ensures ok ==> Index(idx[0]) && Index(idx[1]) && Index(idx[2]) && idx[0] != idx[1] && idx[0] != idx[2] && idx[1] != idx[2]
      ensures ok ==> old(free)[idx[0]] && old(free)[idx[1]] && old(free)[idx[2]]
      ensures ok ==> free == old(free)[idx[0] := false][idx[1] := false][idx[2] := false]
      ensures !ok ==> free == old(free)
      ensures !ok ==> forall a, b, c :: 0 <= a < b < c < NUM ==> !(free[a] && free[b] && free[c])
    {
      idx := [0, 0, 0];
      var i := 0;
      while i < 3
        invariant 0 <= i <= 3 && |idx| == 3 && desc == old(desc) && |free| == NUM
        invariant i >= 1 ==> Index(idx[0]) && old(free)[idx[0]] && forall x :: 0 <= x < idx[0] ==> !old(free)[x]
        invariant i >= 2 ==> idx[0] < idx[1] && Index(idx[1]) && old(free)[idx[1]] && forall x :: idx[0] < x < idx[1] ==> !old(free)[x]
        invariant i >= 3 ==> idx[1] < idx[2] && Index(idx[2]) && old(free)[idx[2]]
        invariant Without(free, old(free), idx, 0, i)
      {
        var got := AllocDesc();
        idx := idx[i := got];
        if got < 0 {
          Undo(idx, i, old(free));
          return false, idx;
        }
        i := i + 1;
      }
      ok := true;
    }

    /** free is free0 but for idx[j..i]. */
    static ghost predicate Without(free: seq<bool>, free0: seq<bool>, idx: seq<int>, j: int, i: int) {
      && |free| == |free0| == NUM && |idx| == 3
      && forall n :: 0 <= n < NUM ==>
           (free[n] <==> free0[n] && !(j <= 0 < i && n == idx[0]) && !(j <= 1 < i && n == idx[1]) && !(j <= 2 < i && n == idx[2]))
    }

    /** alloc3_desc gives back the first i descriptors. */
    method Undo(idx: seq<int>, i: int, ghost free0: seq<bool>)
      requires |desc| == NUM && 0 <= i < 3 && Without(free, free0, idx, 0, i) && forall n :: 0 <= n < NUM ==> !free[n]
      requires i >= 1 ==> Index(idx[0]) && free0[idx[0]] && desc[idx[0]] == EMPTY
      requires i >= 2 ==> idx[0] != idx[1] && Index(idx[1]) && free0[idx[1]] && desc[idx[1]] == EMPTY
      modifies `free, `desc
      ensures free == free0 && desc == old(desc)
    {
      var j := 0;
      while j < i
        invariant 0 <= j <= i && desc == old(desc) && Without(free, free0, idx, j, i)
      {
        FreeDesc(idx[j]);
        j := j + 1;
      }
    }

    /** The first segment of virtio_disk_rw: h is the head of the chain that was log.posted, or -1 if
        the process must wait for descriptors.  b's sleep-lock is held, so no request is using b. */
    method Start(b: int, write: bool, blockno: int) returns (h: int, ghost i1: int, ghost i2: int)
      requires Valid() && 0 <= b < |busy| && !busy[b] && 0 <= blockno < |image|
      requires forall g :: 0 <= g < NUM && log.jobs[g].Job? ==> log.jobs[g].b != b
      modifies this
      ensures Valid()
      ensures h == -1 ==> M() == old(M()) && forall x, y, z :: 0 <= x < y < z < NUM ==> !(free[x] && free[y] && free[z])
      ensures h != -1 ==> CanPost(old(M()), h, i1, i2, b, blockno) && M() == Post(old(M()), h, i1, i2, b, write, blockno)
      ensures h != -1 ==> Asked(M(), h, b, write, blockno) && busy[b] && OthersStay(old(M()), M(), h)
      ensures data == old(data) && image == old(image)
    {
      ghost var d := M();
      assert forall i :: 0 <= i < NUM && free[i] ==> RoleOk(d, i);
      var ok, idx := Alloc3Desc();
      if !ok { return -1, 0, 0; }
      h, i1, i2 := idx[0], idx[1], idx[2];
      PostInv(d, h, i1, i2, b, write, blockno);
      PostedAsks(d, h, i1, i2, b, write, blockno);
      Submit(idx, b, write, blockno, d);
    }

    /** virtio_disk_rw from the formatting to the notification. */
    method Submit(idx: seq<int>, b: int, write: bool, blockno: int, ghost d: Disk)
      requires |desc| == |info| == |ops| == |rings.avail| == |log.role| == |log.jobs| == |d.free| == NUM && 0 <= b < |busy|
      requires |idx| == 3 && Index(idx[0]) && Index(idx[1]) && Index(idx[2])
      requires M() == d.(free := d.free[idx[0] := false][idx[1] := false][idx[2] := false])
      modifies this
      ensures M() == Post(d, idx[0], idx[1], idx[2], b, write, blockno)
    {
      var h := idx[0];
      ops := ops[h := Request(write, blockno * 2)];
      desc := desc[h := Desc(Op(h), false, true, idx[1])];
      desc := desc[idx[1] := Desc(Data(b), !write, true, idx[2])];
      info := info[h := info[h].(status := 0xff)];
      desc := desc[idx[2] := Desc(Status(h), true, false, 0)];
      busy := busy[b := true];
      info := info[h := info[h].(b := b)];
      rings := rings.(avail := rings.avail[rings.availIdx % NUM := h]);
      rings := rings.(availIdx := (rings.availIdx + 1) % TWO16);
      log := Post(d, h, idx[1], idx[2], b, write, blockno).log;
    }

    /** The device looks at the avail ring; it has its own 16-bit index. */
    method DeviceTake(lastAvail: int) returns (h: int)
      requires Valid() && lastAvail == log.taken % TWO16
      modifies this
      ensures Valid() && (h == -1 <==> old(log).taken == |old(log).posted|)
      ensures h == -1 ==> M() == old(M())
      ensures h != -1 ==> h == old(log).posted[old(log).taken] && Index(h) && old(log).jobs[h].Job?
      ensures h != -1 ==> M() == old(M()).(log := SetPhase(old(log), h, Taken).(taken := old(log).taken + 1))
    {
      NextHeadOk(M());
      if lastAvail == rings.availIdx { return -1; }
      TakeInv(M());
      h := rings.avail[lastAvail % NUM];
      log := SetPhase(log, h, Taken).(taken := log.taken + 1);
      assert M() == Take(old(M()));
    }

    /** The device is done with a request that it took: it moves the block that was asked for. */
    method DeviceReturn(h: int)
      requires Valid() && Index(h) && log.jobs[h].Job? && log.jobs[h].phase == Taken
      modifies this
      ensures Valid() && Readable(old(M()), h) && M() == Return(old(M()), h)
      ensures var j := old(log).jobs[h];
              && 0 <= j.b < |data| == |old(data)| && 0 <= j.blockno < |image| == |old(image)|
              && if j.write then image == old(image)[j.blockno := data[j.b]] && data == old(data)
                 else data == old(data)[j.b := image[j.blockno]] && image == old(image)
    {
      ReturnMoves(M(), h);
      ReturnInv(M(), h);
      Move(h);
    }

    method Move(h: int)
      requires Readable(M(), h) && log.jobs[h].Job?
      modifies this
      ensures M() == Return(old(M()), h)
    {
      var op := ops[desc[h].addr.i];
      var e := desc[desc[h].next];
      var n, b, st := op.sector / 2, e.addr.b, desc[e.next].addr.i;
      image, data := if op.write then image[n := data[b]] else image, if op.write then data else data[b := image[n]];
      info := info[st := info[st].(status := 0)];
      rings := rings.(used := rings.used[rings.usedIdx % NUM := h], usedIdx := (rings.usedIdx + 1) % TWO16);
      log := SetPhase(log, h, Used(|log.returned|)).(returned := log.returned + [h]);
    }

    /** One turn of virtio_disk_intr's loop: the status panic is not reached, and a request that was
        never completed before is completed. */
    method IntrNext()
      requires Valid() && seenIdx != rings.usedIdx
      modifies this
      ensures Valid() && log.consumed == old(log).consumed + 1 <= |log.returned| && log.returned == old(log).returned && rings == old(rings)
      ensures var h := old(log).returned[old(log).consumed];
              && Index(h) && old(log).jobs[h].Job? && old(log).jobs[h].phase.Used?
              && log.jobs == old(log).jobs[h := old(log).jobs[h].(phase := Completed)]
              && var j: Job := old(log).jobs[h];
                 && 0 <= j.b < |old(busy)| && busy == old(busy)[j.b := false] && old(busy)[j.b]
                 && 0 <= j.req < |old(log).count| && old(log).count[j.req] == 0 && log.count == old(log).count[j.req := 1]
    {
      NextUsedOk(M());
      ConsumeInv(M());
      Complete();
    }

    method Complete()
      requires |rings.used| == |info| == |log.jobs| == NUM && seenIdx >= 0 && Index(NextUsed(M())) && log.jobs[NextUsed(M())].Job?
      requires 0 <= info[NextUsed(M())].b < |busy| && 0 <= log.jobs[NextUsed(M())].req < |log.count|
      requires info[NextUsed(M())].status == 0
      modifies this
      ensures M() == Consume(old(M()))
    {
      var id := rings.used[seenIdx % NUM];
      var b := info[id].b;
      busy := busy[b := false];
      seenIdx := (seenIdx + 1) % TWO16;
      log := SetPhase(log, id, Completed).(consumed := log.consumed + 1, count := log.count[log.jobs[id].req := log.count[log.jobs[id].req] + 1]);
    }

    /** The requests in hs are different ones that the device has taken. */
    ghost predicate AllTaken(hs: seq<int>)
      reads this
    {
      && |log.jobs| == NUM
      && (forall k :: 0 <= k < |hs| ==> Index(hs[k]) && log.jobs[hs[k]].Job? && log.jobs[hs[k]].phase == Taken)
      && (forall j, k :: 0 <= j < k < |hs| ==> hs[j] != hs[k])
    }

    /** virtio_disk_intr.  While its loop runs the device goes on: before test t of the ring it returns burst[t] more
        requests of `late`, as long as there are any.  What was returned before the last test, k of them meanwhile, is
        completed. */
    method Intr(late: seq<int>, burst: seq<nat>) returns (k: nat)
      requires Valid() && AllTaken(late)
      modifies this
      ensures Valid() && k <= |late| && log.returned == old(log).returned + late[..k] && log.consumed == |log.returned| >= old(log).consumed
      ensures k == Capped(|late|, Total(burst, log.consumed - old(log).consumed + 1))
    {
      assert late[0..] == late;
      k := ReturnSome(late, 0, if |burst| > 0 then burst[0] else 0);
      NextUsedOk(M());
      var t := 0;
      while seenIdx != rings.usedIdx
        invariant k <= |late| && Valid() && AllTaken(late[k..]) && log.returned == old(log).returned + late[..k]
        invariant seenIdx != rings.usedIdx <==> log.consumed < |log.returned|
        invariant t >= 0 && log.consumed == old(log).consumed + t && k == Capped(|late|, Total(burst, t + 1))
        decreases |late| - k, |log.returned| - log.consumed
      {
        t := t + 1;
        ghost var k0 := k;
        k := IntrTurn(late, k, if t < |burst| then burst[t] else 0);
        Joined(old(log).returned, late, k0, k);
      }
    }

    /** One turn of the loop, and what the device does before the next test. */
    method IntrTurn(late: seq<int>, k0: nat, n: nat) returns (k: nat)
      requires Valid() && seenIdx != rings.usedIdx && k0 <= |late| && AllTaken(late[k0..])
      modifies this
      ensures Valid() && k0 <= k == Capped(|late|, k0 + n) && AllTaken(late[k..])
      ensures log.returned == old(log).returned + late[k0..k] && log.consumed == old(log).consumed + 1
      ensures seenIdx != rings.usedIdx <==> log.consumed < |log.returned|
    {
      IntrNext();
      k := ReturnSome(late, k0, n);
      NextUsedOk(M());
    }

    method ReturnSome(late: seq<int>, k0: nat, n: nat) returns (k: nat)
      requires Valid() && k0 <= |late| && AllTaken(late[k0..])
      modifies this
      ensures Valid() && k0 <= k == Capped(|late|, k0 + n) && AllTaken(late[k..])
      ensures log.returned == old(log).returned + late[k0..k] && log.consumed == old(log).consumed
    {
      k := k0;
      while k < |late| && k < k0 + n
        invariant k0 <= k <= |late| && k <= k0 + n && Valid() && AllTaken(late[k..])
        invariant log.returned == old(log).returned + late[k0..k] && log.consumed == old(log).consumed
      {
        k := ReturnLate(late, k);
      }
    }

    method ReturnLate(late: seq<int>, k0: nat) returns (k: nat)
      requires Valid() && k0 < |late| && AllTaken(late[k0..])
      modifies this
      ensures k == k0 + 1 && Valid() && AllTaken(late[k..]) && log.returned == old(log).returned + [late[k0]] && log.consumed == old(log).consumed
    {
      assert late[k0..][0] == late[k0];
      DeviceReturn(late[k0]);
      k := k0 + 1;
      assert late[k..] == late[k0..][1..];
      forall j | 0 <= j < |late[k..]| ensures late[k..][j] == late[k0..][j + 1] {}
    }

    /** free_chain(i), for the chain i, d1, d2. */
    method FreeChain(i0: int, ghost d1: int, ghost d2: int)
      requires |free| == |desc| == NUM && Index(i0) && Index(d1) && Index(d2) && i0 != d1 && i0 != d2 && d1 != d2
      requires !free[i0] && !free[d1] && !free[d2]
      requires desc[i0].more && desc[i0].next == d1 && desc[d1].more && desc[d1].next == d2 && !desc[d2].more
      modifies `free, `desc
      ensures free == old(free)[i0 := true][d1 := true][d2 := true]
      ensures desc == old(desc)[i0 := EMPTY][d1 := EMPTY][d2 := EMPTY]
    {
      var i, more := i0, true;
      ghost var pos := 0;
      while more
        invariant 0 <= pos <= 3 && (more <==> pos < 3) && (pos < 3 ==> i == [i0, d1, d2][pos])
        invariant free == if pos == 0 then old(free) else if pos == 1 then old(free)[i0 := true]
                          else if pos == 2 then old(free)[i0 := true][d1 := true] else old(free)[i0 := true][d1 := true][d2 := true]
        invariant desc == if pos == 0 then old(desc) else if pos == 1 then old(desc)[i0 := EMPTY]
                          else if pos == 2 then old(desc)[i0 := EMPTY][d1 := EMPTY] else old(desc)[i0 := EMPTY][d1 := EMPTY][d2 := EMPTY]
        decreases 3 - pos
      {
        var flag, nxt := desc[i].more, desc[i].next;
        FreeDesc(i);
        if flag { i := nxt; } else { more := false; }
        pos := pos + 1;
      }
    }

    /** The last segment of virtio_disk_rw, once b->disk is no longer 1. */
    method End(h: int)
      requires Valid() && Index(h) && log.jobs[h].Job? && 0 <= log.jobs[h].b < |busy| && !busy[log.jobs[h].b]
      modifies this
      ensures Valid() && Index(old(log).jobs[h].d1) && Index(old(log).jobs[h].d2) && M() == Finish(old(M()), h)
      ensures 0 <= old(log).jobs[h].req < |log.count| && log.count[old(log).jobs[h].req] == 1
    {
      ghost var d := M();
      assert JobOk(d, h) && ChainOk(d, h);
      ghost var j := log.jobs[h];
      assert CountOk(d, j.req) && RoleOk(d, h) && RoleOk(d, j.d1) && RoleOk(d, j.d2);
      FinishInv(d, h);
      Release(h);
    }

    method Release(h: int)
      requires |free| == |desc| == |info| == |log.role| == |log.jobs| == NUM && Index(h) && log.jobs[h].Job?
      requires Index(log.jobs[h].d1) && Index(log.jobs[h].d2) && h != log.jobs[h].d1 && h != log.jobs[h].d2 && log.jobs[h].d1 != log.jobs[h].d2
      requires !free[h] && !free[log.jobs[h].d1] && !free[log.jobs[h].d2]
      requires desc[h].more && desc[h].next == log.jobs[h].d1
      requires desc[log.jobs[h].d1].more && desc[log.jobs[h].d1].next == log.jobs[h].d2 && !desc[log.jobs[h].d2].more
      modifies this
      ensures M() == Finish(old(M()), h)
    {
      ghost var d1, d2 := log.jobs[h].d1, log.jobs[h].d2;
      info := info[h := info[h].(b := 0)];
      FreeChain(h, d1, d2);
      log := log.(role := log.role[h := Unused][d1 := Unused][d2 := Unused], jobs := log.jobs[h := Idle]);
    }
  }
}
