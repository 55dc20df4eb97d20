/** kernel/log.c as code over the buffer cache of kernel/bio.c.  The ghost fields record the run of
    LogMachine that log and cache have performed so far.  WriteBlock is the only method that touches
    the disk and every call of it appends one state to the run, so LogRuns.CrashAtomicity speaks
    about every disk image a crash could leave behind.

    A bread can find a buffer, find it locked by another process, or panic; code that would sleep
    returns and goes on when it is called again with the stage it had reached. */
module Log {
  import opened LogMachine
  import opened LogProof
  import opened LogRuns
  import opened LogPanics
  import opened LogCache
  import Bcache

  datatype Out = Got | Waits | Panics

  /** How far a thread is that needs the buffers of two blocks. */
  datatype At = Nowhere | FirstClaimed(x: int) | SecondClaimed(x: int, y: int)

  /** How far a commit is; the buffer of the header block is -1 until it is claimed. */
  datatype Stage = Copy(tail: nat, at: At) | Head(x: int) | Inst(tail: nat, at: At) | Erase(x: int) | Done

  /** Only what bread and brelse change. */
  ghost predicate SameRest(m: State, m': State) { m' == m.(cache := m'.cache, held := m'.held, claim := m'.claim) }

  /** The transaction is as it was. */
  ghost predicate SameGroup(m: State, m': State) {
    m'.lh == m.lh && m'.ops == m.ops && m'.history == m.history && m'.nextOp == m.nextOp && m'.durable == m.durable
  }

  /** bread returns data for block b, and for every other block what it returned before. */
  ghost predicate SeenAs(m: State, m': State, b: nat, data: Block) {
    |m'.disk| == |m.disk| && forall x :: 0 <= x < |m.disk| ==> View(m', x) == if x == b then data else View(m, x)
  }

  ghost predicate Commits(p: Phase) { p.Copying? || p.Installing? || p.Cleared? }

  class Log {
    const c: Config
    var bc: Bcache.Bcache
    var n: nat                  // log.lh.n
    const block: array<int>     // log.lh.block
    var outstanding: int
    var committing: bool
    ghost const init: seq<Block>
    ghost var run: seq<State>
    ghost var acts: seq<Action>

    /** The fields agree with the last state of a run. */
    ghost predicate Valid()
      reads this, block, bc
    {
      && IsRun(c, init, run, acts) && bc.Valid() && Tied(M(), bc.S())
      && block.Length == LOGSIZE && n <= LOGSIZE
      && |bc.disk| == c.nblocks && |init| == c.nblocks
      && block[..n] == M().lh
      && outstanding == |M().ops|
      && committing == Commits(M().phase)
    }

    ghost function M(): State
      reads this
      requires run != []
    { run[|run| - 1] }

    /** Every state of the run so far is still in it. */
    twostate predicate Extends()
      reads this
    {
      old(run) <= run && old(acts) <= acts
    }

    ghost method Record(a: Action, t: State)
      requires IsRun(c, init, run, acts) && Next(c, M(), a, t)
      modifies this`run, this`acts
      ensures IsRun(c, init, run, acts) && M() == t
      ensures run == old(run) + [t] && acts == old(acts) + [a]
    {
      Extend(c, init, run, acts, a, t);
      run, acts := run + [t], acts + [a];
    }

    constructor (c: Config, image: seq<Block>)
      requires ValidConfig(c) && |image| == c.nblocks && image[c.start][0] == 0
      ensures Valid() && this.c == c && init == image && M().phase.Boot? && Alone(M()) && fresh(block) && fresh(bc)
    {
      this.c := c;
      bc := new Bcache.Bcache(image);
      n, outstanding, committing := 0, 0, false;
      block := new int[LOGSIZE];
      init := image;
      run, acts := [State(image, map[], map[], multiset{}, {}, [], [], Boot, 0, 0, [], 0)], [];
      new;
      forall x | 0 <= x < NBUF ensures TiedAt(M(), bc.S(), x) { assert bc.At(x); }
    }

    // ---------- buffers ----------

    /** Buffer x has block b, and `who` has it locked. */
    ghost predicate Locked(x: int, b: int, who: Who)
      reads this, bc
      requires run != []
    {
      && 0 <= x < NBUF == |bc.buf| && Bcache.Caches(bc.buf[x], b) && bc.buf[x].locked && bc.buf[x].valid && b in M().held && M().held[b] == who
    }

    /** Buffer x has block b, and a process that does not have the lock yet is counted. */
    ghost predicate Claimed(x: int, b: int)
      reads this, bc
      requires run != []
    { 0 <= x < NBUF == |bc.buf| && Bcache.Caches(bc.buf[x], b) && M().claim[b] > 0 }

    /** All buffers but x are as before, and if x was in use it still has its block. */
    twostate predicate Others(x: int)
      reads this, bc
    {
      && bc == old(bc) && |bc.buf| == |old(bc.buf)| && bc.disk == old(bc.disk) && bc.latest == old(bc.latest)
      && (forall y :: 0 <= y < |bc.buf| && y != x ==> bc.buf[y] == old(bc.buf[y]))
      && (0 <= x < |bc.buf| && (old(bc.buf[x]).locked || old(bc.buf[x]).refcnt > 0) ==> bc.buf[x].dev == old(bc.buf[x]).dev && bc.buf[x].blockno == old(bc.buf[x]).blockno)
    }

    ghost method RecordHit(x: int, b: nat, k: Bcache.Snap)
      requires IsRun(c, init, run, acts) && Tied(M(), k) && 0 <= x < NBUF && b < |M().disk| && Bcache.Caches(k.buf[x], b)
      requires bc.Valid() && bc.S() == k.(buf := k.buf[x := k.buf[x].(refcnt := k.buf[x].refcnt + 1)])
      modifies this`run, this`acts
      ensures IsRun(c, init, run, acts) && M() == old(M()).(claim := old(M()).claim + multiset{b}) && Tied(M(), bc.S()) && Extends()
    {
      var m := M();
      var t := m.(claim := m.claim + multiset{b});
      HitTied(m, t, k, bc.S(), x, b);
      assert m.cache[b := View(m, b)] == m.cache;
      Record(Get(b), t);
    }

    ghost method RecordMiss(x: int, b: nat, k: Bcache.Snap)
      requires IsRun(c, init, run, acts) && Tied(M(), k) && CacheInv(M()) && 0 <= x < NBUF && b < |k.disk|
      requires (forall y :: 0 <= y < NBUF ==> !Bcache.Caches(k.buf[y], b)) && k.buf[x].refcnt == 0
      requires bc.Valid() && bc.S() == k.(buf := k.buf[x := Fetched(k.buf[x], b)])
      modifies this`run, this`acts
      ensures IsRun(c, init, run, acts) && Tied(M(), bc.S()) && Extends()
      ensures SameRest(old(M()), M()) && M().held == old(M()).held && M().claim == old(M()).claim + multiset{b}
    {
      var m := M();
      Recyclable(m, k, x, b);
      var w := Without(m, k.buf[x]);
      if k.buf[x].dev == Bcache.ROOTDEV { Record(Evict(k.buf[x].blockno), w); }
      var t := w.(cache := w.cache[b := k.disk[b]], claim := w.claim + multiset{b});
      Recycled(m, t, k, bc.S(), x, b);
      Record(Get(b), t);
    }

    /** bget: -1 stands for its panic. */
    method Claim(b: nat) returns (x: int)
      requires Valid() && b < c.nblocks
      modifies this`run, this`acts, bc
      ensures Valid() && Extends() && SameRest(old(M()), M())
      ensures x == -1 <==> BgetPanics(old(M()), b)
      ensures x == -1 ==> M() == old(M())
      ensures x != -1 ==> Claimed(x, b) && M().held == old(M()).held && M().claim == old(M()).claim + multiset{b}
      ensures Others(x)
    {
      RunCache(c, init, run, acts, |run| - 1);
      ghost var k := bc.S();
      PanicIs(M(), k, b);
      x := bc.Bget(Bcache.ROOTDEV, b);
      if x == -1 {
        assert bc.buf == k.buf;
        return;
      }
      assert old(bc.At(x));
      assert bc.buf == k.buf[x := bc.buf[x]];
      if Bcache.Caches(k.buf[x], b) {
        RecordHit(x, b, k);
      } else {
        RecordMiss(x, b, k);
      }
    }

    /** The rest of bread, once nobody has the buffer locked. */
    method Take(b: nat, x: int, ghost who: Who)
      requires Valid() && Claimed(x, b) && b !in M().held && (who.ByOp? ==> InProgress(M().ops, who.id))
      modifies this`run, this`acts, bc
      ensures Valid() && Extends() && Locked(x, b, who)
      ensures M() == old(M()).(held := old(M()).held[b := who], claim := old(M()).claim - multiset{b}) && Others(x)
    {
      ghost var m, k := M(), bc.S();
      assert TiedAt(m, k, x);
      bc.Resume(x);
      assert bc.buf == k.buf[x := bc.buf[x]];
      ghost var t := m.(claim := m.claim - multiset{b}, held := m.held[b := who]);
      LockTied(m, t, k, bc.S(), x, b, who);
      Record(Lock(b, who), t);
    }

    /** A claimed buffer is locked, or the caller waits on. */
    method TryTake(b: nat, x: int, ghost who: Who) returns (out: Out)
      requires Valid() && Claimed(x, b) && (who.ByOp? ==> InProgress(M().ops, who.id))
      modifies this`run, this`acts, bc
      ensures Valid() && Extends() && out != Panics && (out == Waits <==> b in old(M()).held)
      ensures Others(x) && (out == Waits ==> Claimed(x, b) && M() == old(M()))
      ensures out == Got ==> Locked(x, b, who) && M() == old(M()).(held := old(M()).held[b := who], claim := old(M()).claim - multiset{b})
    {
      assert TiedAt(M(), bc.S(), x);
      if bc.buf[x].locked { return Waits; }
      Take(b, x, who);
      out := Got;
    }

    /** bread by an operation, a reader or the log; x0 is the buffer that a call which waited has claimed, or -1. */
    method Bread(b: nat, x0: int, ghost who: Who) returns (out: Out, x: int)
      requires Valid() && b < c.nblocks && (who.ByOp? ==> InProgress(M().ops, who.id)) && (x0 != -1 ==> Claimed(x0, b))
      modifies this`run, this`acts, bc
      ensures Valid() && Extends() && SameRest(old(M()), M())
      ensures out == Panics <==> x0 == -1 && BgetPanics(old(M()), b)
      ensures out == Panics ==> M() == old(M())
      ensures out == Waits ==> b in old(M()).held && Claimed(x, b) && M().held == old(M()).held
      ensures out == Waits ==> M().claim == if x0 == -1 then old(M()).claim + multiset{b} else old(M()).claim
      ensures out == Got ==> b !in old(M()).held && Locked(x, b, who) && M().held == old(M()).held[b := who]
      ensures out == Got ==> M().claim == if x0 == -1 then old(M()).claim else old(M()).claim - multiset{b}
      ensures Others(x)
    {
      x := x0;
      if x == -1 {
        x := Claim(b);
        if x == -1 { return Panics, -1; }
        assert M().claim - multiset{b} == old(M()).claim;
      }
      out := TryTake(b, x, who);
    }

    /** The holder of a buffer changes its block. */
    method Modify(x: int, b: nat, data: Block, ghost i: nat)
      requires Valid() && M().phase.Running? && Holds(M(), i, b) && Home(c, b) && Locked(x, b, ByOp(M().ops[i].id))
      modifies this`run, this`acts, bc
      ensures Valid() && Extends() && NextModify(c, old(M()), i, b, data, M()) && Locked(x, b, ByOp(M().ops[i].id))
      ensures b < |old(bc.latest)| && bc.latest == old(bc.latest)[b := data] && bc.disk == old(bc.disk)
      ensures SeenAs(old(M()), M(), b, data)
    {
      ghost var m, k := M(), bc.S();
      assert TiedAt(m, k, x);
      bc.Modify(x, data);
      ghost var t := m.(cache := m.cache[b := data], dirty := m.dirty + {b}, history := m.history + [Write(m.ops[i].id, b, data)]);
      assert bc.buf == k.buf[x := k.buf[x].(data := data)];
      ModifyTied(m, t, k, bc.S(), x, b, data);
      Record(Action.Modify(i, b, data), t);
    }

    /** brelse up to releasesleep, by whoever has the buffer locked; a block that an operation has changed must have
        been logged. */
    method Unlock(x: int, b: nat, ghost who: Who)
      requires Valid() && Locked(x, b, who) && b !in M().dirty
      modifies this`run, this`acts, bc
      ensures Valid() && Extends() && Claimed(x, b) && Others(x)
      ensures M() == old(M()).(held := old(M()).held - {b}, claim := old(M()).claim + multiset{b})
    {
      ghost var m, k := M(), bc.S();
      assert TiedAt(m, k, x);
      bc.Unlock(x);
      assert bc.buf == k.buf[x := bc.buf[x]];
      ghost var t := m.(held := m.held - {b}, claim := m.claim + multiset{b});
      UnlockTied(m, t, k, bc.S(), x, b);
      Record(Action.Unlock(b), t);
    }

    /** The rest of brelse. */
    method Drop(x: int, b: nat)
      requires Valid() && Claimed(x, b)
      modifies this`run, this`acts, bc
      ensures Valid() && Extends() && Others(x) && M() == old(M()).(claim := old(M()).claim - multiset{b})
    {
      ghost var m, k := M(), bc.S();
      assert TiedAt(m, k, x);
      bc.Drop(x);
      assert bc.buf == k.buf[x := bc.buf[x]];
      ghost var t := m.(claim := m.claim - multiset{b});
      DropTied(m, t, k, bc.S(), x, b);
      Record(Action.Drop(b), t);
    }

    /** Both halves with nobody in between. */
    method Brelse(x: int, b: nat, ghost who: Who)
      requires Valid() && Locked(x, b, who) && b !in M().dirty
      modifies this`run, this`acts, bc
      ensures Valid() && Extends() && M() == old(M()).(held := old(M()).held - {b}) && Others(x)
    {
      Unlock(x, b, who);
      assert TiedAt(M(), bc.S(), x);
      Drop(x, b);
    }

    /** memmove into a locked buffer, bwrite, and bunpin if asked to. */
    method Store(x: int, b: nat, data: Block, unpin: bool)
      requires bc.Valid() && 0 <= x < NBUF && Bcache.Caches(bc.buf[x], b) && bc.buf[x].locked && bc.buf[x].valid
      requires unpin ==> bc.pins[x] > 0
      modifies bc
      ensures bc.Valid() && |old(bc.buf)| == |old(bc.pins)| == NBUF && b < |old(bc.disk)| == |old(bc.latest)|
      ensures var p := if unpin then old(bc.pins)[x] - 1 else old(bc.pins)[x];
              && bc.pins == old(bc.pins)[x := p] && !bc.dirty[x]
              && bc.buf == old(bc.buf)[x := old(bc.buf)[x].(data := data, refcnt := old(bc.buf)[x].refcnt - old(bc.pins)[x] + p)]
      ensures bc.disk == old(bc.disk)[b := data] && bc.latest == old(bc.latest)[b := data]
      ensures forall y :: 0 <= y < NBUF && y != x ==> bc.dirty[y] == old(bc.dirty)[y]
    {
      bc.Modify(x, data);
      bc.Bwrite(x);
      if unpin { bc.Bunpin(x); }
    }

    /** Store, by the thread that commits or recovers; `a` is the machine's action and `t` the state it leads to. */
    method WriteBlock(x: int, b: nat, data: Block, unpin: bool, ghost a: Action, ghost t: State)
      requires IsRun(c, init, run, acts) && bc.Valid() && Tied(M(), bc.S()) && Locked(x, b, ByLogger)
      requires b < |M().disk| && Next(c, M(), a, t) && t.disk == M().disk[b := data] && t.cache == M().cache[b := data]
      requires t.held == M().held && t.claim == M().claim && t.dirty == M().dirty
      requires forall i :: i != b ==> (Pinned(t, i) <==> Pinned(M(), i))
      requires (Pinned(t, b) <==> Pinned(M(), b) && !unpin) && (unpin ==> Pinned(M(), b))
      modifies this`run, this`acts, bc
      ensures IsRun(c, init, run, acts) && bc.Valid() && Tied(M(), bc.S()) && M() == t && Locked(x, b, ByLogger)
      ensures run == old(run) + [t] && acts == old(acts) + [a]
      ensures |bc.buf| == |old(bc.buf)| && forall y :: 0 <= y < |bc.buf| && y != x ==> bc.buf[y] == old(bc.buf[y])
    {
      ghost var m, k := M(), bc.S();
      assert TiedAt(m, k, x);
      Store(x, b, data, unpin);
      WriteTied(m, t, k, bc.S(), x, b, data);
      Record(a, t);
    }

    // ---------- begin_op, log_write ----------

    /** One turn of begin_op's loop: false means the caller sleeps. */
    method BeginOp() returns (ok: bool)
      requires Valid() && !M().phase.Boot? && !M().phase.Recovering?
      modifies this`outstanding, this`run, this`acts
      ensures Valid() && Extends()
      ensures ok <==> !old(committing) && old(n) + (old(outstanding) + 1) * MAXOPBLOCKS <= LOGSIZE
      ensures if ok then NextBegin(c, old(M()), M()) else M() == old(M())
    {
      ok := !committing && n + (outstanding + 1) * MAXOPBLOCKS <= LOGSIZE;
      if ok {
        ghost var s := M();
        ghost var t := s.(ops := s.ops + [Op(s.nextOp, 0)], nextOp := s.nextOp + 1);
        TiedSame(s, t, bc.S());
        outstanding := outstanding + 1;
        Record(Begin, t);
      }
    }

    /** The place of b in the list, or the list's end. */
    method Find(b: int) returns (k: nat)
      requires n <= LOGSIZE == block.Length
      ensures k <= n && (k < n <==> b in block[..n]) && (k < n ==> block[k] == b)
    {
      k := 0;
      while k < n && block[k] != b
        invariant k <= n
        invariant forall j :: 0 <= j < k ==> block[j] != b
      {
        k := k + 1;
      }
      assert k < n ==> block[..n][k] == b;
    }

    ghost method RecordLogged(x: int, b: nat, i: nat, k: Bcache.Snap)
      requires IsRun(c, init, run, acts) && M().phase.Running? && Holds(M(), i, b) && Home(c, b) && b !in M().lh
      requires M().ops[i].added < MAXOPBLOCKS && !TooBig(c, M())
      requires Tied(M(), k) && 0 <= x < NBUF && Bcache.Caches(k.buf[x], b) && bc.Valid()
      requires bc.S() == k.(buf := k.buf[x := k.buf[x].(refcnt := k.buf[x].refcnt + 1)], pins := k.pins[x := k.pins[x] + 1])
      modifies this`run, this`acts
      ensures IsRun(c, init, run, acts) && NextLogWrite(c, old(M()), i, b, M()) && Tied(M(), bc.S()) && Extends()
    {
      var s := M();
      var t := s.(dirty := s.dirty - {b}, lh := s.lh + [b], ops := s.ops[i := s.ops[i].(added := s.ops[i].added + 1)]);
      PinTied(s, t, k, bc.S(), x, b);
      Record(Action.LogWrite(i, b), t);
    }

    /** log_write from the place k of b on. */
    method Enter(x: int, b: nat, k: nat, ghost i: nat)
      requires Valid() && M().phase.Running? && Holds(M(), i, b) && Home(c, b) && Locked(x, b, ByOp(M().ops[i].id))
      requires (b in M().lh || M().ops[i].added < MAXOPBLOCKS) && !TooBig(c, M())
      requires k <= n < LOGSIZE && (k < n <==> b in block[..n]) && (k < n ==> block[k] == b)
      modifies this`n, this`run, this`acts, block, bc
      ensures Valid() && Extends() && Locked(x, b, ByOp(M().ops[i].id)) && NextLogWrite(c, old(M()), i, b, M())
    {
      ghost var s, k0 := M(), bc.S();
      block[k] := b;
      if k == n {
        bc.Bpin(x);
        n := n + 1;
        RecordLogged(x, b, i, k0);
      } else {
        assert block[..n] == s.lh;
        ghost var t := s.(dirty := s.dirty - {b});
        AbsorbTied(s, t, k0, b);
        Record(Action.LogWrite(i, b), t);
      }
    }

    /** Operation i logs block b, whose buffer it holds. */
    method LogWrite(x: int, b: nat, ghost i: nat) returns (panics: bool)
      requires Valid() && M().phase.Running? && Holds(M(), i, b) && Home(c, b) && Locked(x, b, ByOp(M().ops[i].id))
      requires b in M().lh || M().ops[i].added < MAXOPBLOCKS
      modifies this`n, this`run, this`acts, block, bc
      ensures panics <==> TooBig(c, old(M()))
      ensures c.size >= LOGSIZE + 1 && b !in old(M()).lh ==> !panics
      ensures Valid() && Extends() && Locked(x, b, ByOp(M().ops[i].id))
      ensures if panics then M() == old(M()) else NextLogWrite(c, old(M()), i, b, M())
      ensures !panics ==> b !in M().dirty && M().lh == if b in old(M()).lh then old(M()).lh else old(M()).lh + [b]
    {
      if c.size >= LOGSIZE + 1 && b !in M().lh { AppendFits(c, init, run, acts, i); }
      panics := n >= LOGSIZE || n >= c.size - 1 || outstanding < 1;
      if panics { return; }
      var k := Find(b);
      Enter(x, b, k, i);
    }

    // ---------- the two buffers of a log entry ----------

    ghost predicate AtOk(at: At, a: int, b: int)
      reads this, bc
      requires run != []
    {
      match at
      case Nowhere => true
      case FirstClaimed(x) => Claimed(x, a)
      case SecondClaimed(x, y) => Locked(x, a, ByLogger) && Claimed(y, b)
    }

    /** Both buffers are locked; x's has a and y's has b. */
    ghost predicate Both(x: int, y: int, a: int, b: int)
      reads this, bc
      requires run != []
    { Locked(x, a, ByLogger) && Locked(y, b, ByLogger) }

    method First(a: nat, b: nat, at: At) returns (out: Out, x: int)
      requires Valid() && a < c.nblocks && b < c.nblocks && AtOk(at, a, b)
      modifies this`run, this`acts, bc
      ensures Valid() && Extends() && SameRest(old(M()), M())
      ensures out == Got ==> Locked(x, a, ByLogger) && (at.SecondClaimed? ==> Claimed(at.y, b))
      ensures out == Waits ==> !at.SecondClaimed? && Claimed(x, a) && a in old(M()).held
      ensures out == Panics <==> at.Nowhere? && BgetPanics(old(M()), a)
      ensures Alone(old(M())) && at.Nowhere? && Enough(old(M()), b) ==> out == Got && OneOnly(M(), a) && Enough(M(), b)
    {
      if at.SecondClaimed? { return Got, at.x; }
      if Alone(M()) && Enough(M(), b) {
        RunCache(c, init, run, acts, |run| - 1);
        FewUsers(M(), a);
      }
      out, x := Bread(a, if at.FirstClaimed? then at.x else -1, ByLogger);
    }

    method Second(a: nat, b: nat, x: int, y0: int) returns (out: Out, y: int)
      requires Valid() && a < c.nblocks && b < c.nblocks && a != b && Locked(x, a, ByLogger) && (y0 != -1 ==> Claimed(y0, b))
      modifies this`run, this`acts, bc
      ensures Valid() && Extends() && SameRest(old(M()), M())
      ensures out == Got ==> Both(x, y, a, b)
      ensures out == Waits ==> Locked(x, a, ByLogger) && Claimed(y, b) && b in old(M()).held
      ensures out == Panics <==> y0 == -1 && BgetPanics(old(M()), b)
      ensures OneOnly(old(M()), a) && y0 == -1 && Enough(old(M()), b) ==> out == Got && PairOnly(M(), a, b)
    {
      if OneOnly(M(), a) && Enough(M(), b) {
        RunCache(c, init, run, acts, |run| - 1);
        NextUser(M(), a, b);
      }
      out, y := Bread(b, y0, ByLogger);
      assert out != Panics ==> y != x;
    }

    /** bread(a) and then bread(b); where the thread has to sleep, the next call goes on from `at`. */
    method Pair(a: nat, b: nat, at: At) returns (out: Out, at': At, x: int, y: int)
      requires Valid() && a < c.nblocks && b < c.nblocks && a != b && AtOk(at, a, b)
      modifies this`run, this`acts, bc
      ensures Valid() && Extends() && SameRest(old(M()), M())
      ensures out == Got ==> Both(x, y, a, b)
      ensures out == Waits ==> AtOk(at', a, b)
      ensures Alone(old(M())) && at.Nowhere? && BgetPanics(old(M()), a) ==> out == Panics
      ensures Alone(old(M())) && at.Nowhere? && Enough(old(M()), b) ==> out == Got && PairOnly(M(), a, b)
    {
      out, x := First(a, b, at);
      at', y := FirstClaimed(x), -1;
      if out != Got { return; }
      out, y := Second(a, b, x, if at.SecondClaimed? then at.y else -1);
      at' := SecondClaimed(x, y);
    }

    /** A locked buffer has the block as bread returns it. */
    lemma DataIs(x: int, b: nat, who: Who)
      requires bc.Valid() && run != [] && Tied(M(), bc.S()) && Locked(x, b, who)
      ensures b in M().cache && b < |M().disk| && bc.buf[x].data == View(M(), b)
    {
      assert bc.At(x);
      assert TiedAt(M(), bc.S(), x);
    }

    method ReleaseBoth(x: int, y: int, a: nat, b: nat)
      requires Valid() && Both(x, y, a, b) && a != b && M().dirty == {}
      modifies this`run, this`acts, bc
      ensures Valid() && Extends() && M() == old(M()).(held := old(M()).held - {a} - {b})
      ensures PairOnly(old(M()), a, b) || PairOnly(old(M()), b, a) ==> Alone(M())
    {
      Brelse(x, a, ByLogger);
      Brelse(y, b, ByLogger);
    }

    /** memmove between two locked buffers, bwrite, perhaps bunpin, and brelse of both. */
    method Move(from: int, to: int, fb: nat, tb: nat, unpin: bool, ghost a: Action, ghost t: State)
      requires Valid() && Both(from, to, fb, tb) && fb != tb && M().dirty == {} && fb < |M().disk| && tb < |M().disk|
      requires Next(c, M(), a, t) && t == LogMachine.Bwrite(M(), tb, View(M(), fb)).(phase := t.phase) && Commits(t.phase) == committing
      requires forall i :: i != tb ==> (Pinned(t, i) <==> Pinned(M(), i))
      requires (Pinned(t, tb) <==> Pinned(M(), tb) && !unpin) && (unpin ==> Pinned(M(), tb))
      modifies this`run, this`acts, bc
      ensures Valid() && Extends() && M() == t.(held := t.held - {fb} - {tb})
      ensures PairOnly(t, tb, fb) || PairOnly(t, fb, tb) ==> Alone(M())
    {
      DataIs(from, fb, ByLogger);
      WriteBlock(to, tb, bc.buf[from].data, unpin, a, t);
      ReleaseBoth(from, to, fb, tb);
    }

    // ---------- commit ----------

    method CopyLocked(tail: nat, x: int, y: int)
      requires Valid() && M().phase == Copying(tail) && tail < n && Both(x, y, c.start + tail + 1, block[tail])
      modifies this`run, this`acts, bc
      ensures Valid() && Extends() && SameGroup(old(M()), M()) && M().phase == Copying(tail + 1)
      ensures PairOnly(old(M()), c.start + tail + 1, block[tail]) ==> Alone(M())
    {
      RunShape(c, init, run, acts, |run| - 1);
      Reservation(c, init, run, acts, |run| - 1);
      assert M().lh[tail] == block[tail];
      ghost var t := LogMachine.Bwrite(M(), c.start + tail + 1, View(M(), block[tail])).(phase := Copying(tail + 1));
      Move(y, x, block[tail], c.start + tail + 1, false, CopyToLog, t);
    }

    /** The two bread calls of a turn of write_log's loop. */
    method CopyPair(tail: nat, at: At) returns (out: Out, at': At, x: int, y: int)
      requires Valid() && M().phase == Copying(tail) && tail < n && AtOk(at, c.start + tail + 1, block[tail])
      modifies this`run, this`acts, bc
      ensures Valid() && Extends() && SameRest(old(M()), M())
      ensures out == Got ==> Both(x, y, c.start + tail + 1, block[tail])
      ensures out == Waits ==> AtOk(at', c.start + tail + 1, block[tail])
      ensures Alone(old(M())) && at.Nowhere? ==> if n < NBUF then out == Got && PairOnly(M(), c.start + tail + 1, block[tail]) else out == Panics
    {
      RunShape(c, init, run, acts, |run| - 1);
      assert M().lh[tail] == block[tail];
      if Alone(M()) && n == NBUF { FullList(c, init, run, acts, c.start + tail + 1); }
      out, at', x, y := Pair(c.start + tail + 1, block[tail], at);
    }

    /** One turn of write_log's loop. */
    method CopyOne(tail: nat, at: At) returns (out: Out, at': At)
      requires Valid() && M().phase == Copying(tail) && tail < n && AtOk(at, c.start + tail + 1, block[tail])
      modifies this`run, this`acts, bc
      ensures Valid() && Extends() && SameGroup(old(M()), M())
      ensures M().phase == Copying(if out == Got then tail + 1 else tail)
      ensures out == Waits ==> AtOk(at', c.start + tail + 1, block[tail])
      ensures Alone(old(M())) && at.Nowhere? ==> if n < NBUF then out == Got && Alone(M()) else out == Panics
    {
      var x, y;
      out, at', x, y := CopyPair(tail, at);
      if out == Got { CopyLocked(tail, x, y); }
    }

    ghost predicate CopyOk(tail: nat, at: At)
      reads this, block, bc
      requires run != [] && n <= LOGSIZE == block.Length
    {
      M().phase == Copying(tail) && tail <= n && if tail < n then AtOk(at, c.start + tail + 1, block[tail]) else at.Nowhere?
    }

    /** Copy the logged blocks from the cache to the log area. */
    method WriteLog(tail0: nat, at0: At) returns (out: Out, tail: nat, at: At)
      requires Valid() && CopyOk(tail0, at0)
      modifies this`run, this`acts, bc
      ensures Valid() && Extends() && SameGroup(old(M()), M()) && tail0 <= tail
      ensures M().phase == Copying(tail) && (out == Waits ==> CopyOk(tail, at)) && (out == Got ==> tail == n)
      ensures Alone(old(M())) && at0.Nowhere? && tail0 < n ==> if n < NBUF then out == Got && Alone(M()) else out == Panics
    {
      out, tail, at := Got, tail0, at0;
      while tail < n
        invariant tail0 <= tail && Valid() && Extends() && SameGroup(old(M()), M()) && CopyOk(tail, at)
        invariant out == Got && (Alone(old(M())) && at0.Nowhere? ==> Alone(M()) && at.Nowhere? && (tail > tail0 ==> n < NBUF))
      {
        out, at := CopyOne(tail, at);
        if out != Got { return; }
        tail, at := tail + 1, Nowhere;
      }
    }

    // ---------- the header block ----------

    /** The header block with the in-memory header copied over it. */
    method HeaderBlock(hb0: Block) returns (hb: Block)
      requires block.Length == LOGSIZE && n <= LOGSIZE
      ensures hb == PutHead(hb0, block[..n])
    {
      hb := hb0[0 := n];
      var i := 0;
      while i < n
        invariant i <= n
        invariant hb[0] == n && hb[1..1 + i] == block[..i] && hb[1 + i..] == hb0[1 + i..]
      {
        hb := hb[1 + i := block[i]];
        i := i + 1;
      }
      assert hb == [n] + hb[1..1 + n] + hb[1 + n..];
    }

    /** The header block for a list of n entries, made from the buffer that is locked. */
    method NewHeader(x: int) returns (hb: Block)
      requires bc.Valid() && run != [] && Tied(M(), bc.S()) && Locked(x, c.start, ByLogger) && n <= LOGSIZE == block.Length
      ensures c.start < |M().disk| && hb == PutHead(View(M(), c.start), block[..n])
    {
      DataIs(x, c.start, ByLogger);
      hb := HeaderBlock(bc.buf[x].data);
    }

    /** bread of the header block; alone, it fails only for want of a buffer. */
    method GetHeader(x0: int) returns (out: Out, x: int)
      requires Valid() && (x0 != -1 ==> Claimed(x0, c.start))
      modifies this`run, this`acts, bc
      ensures Valid() && Extends() && SameRest(old(M()), M())
      ensures out == Got ==> Locked(x, c.start, ByLogger)
      ensures out == Waits ==> x != -1 && Claimed(x, c.start)
      ensures Alone(old(M())) && x0 == -1 && Pins(old(M())) < NBUF ==> out == Got && OneOnly(M(), c.start)
    {
      RunShape(c, init, run, acts, |run| - 1);
      if Alone(M()) && Pins(M()) < NBUF {
        RunCache(c, init, run, acts, |run| - 1);
        FewUsers(M(), c.start);
      }
      out, x := Bread(c.start, x0, ByLogger);
    }

    /** The first write_head of commit: the commit point. */
    method WriteHead(x0: int) returns (out: Out, x: int)
      requires Valid() && M().phase == Copying(n) && (x0 != -1 ==> Claimed(x0, c.start))
      modifies this`run, this`acts, bc
      ensures Valid() && Extends() && M().lh == old(M()).lh && M().history == old(M()).history
      ensures out == Got ==> M().phase == Installing(0)
      ensures out == Waits ==> M().phase == Copying(n) && x != -1 && Claimed(x, c.start)
      ensures Alone(old(M())) && x0 == -1 && n < NBUF ==> out == Got && Alone(M())
    {
      out, x := GetHeader(x0);
      if out != Got { return; }
      PutHeader(x);
      Reservation(c, init, run, acts, |run| - 1);
      Brelse(x, c.start, ByLogger);
    }

    method PutHeader(x: int)
      requires Valid() && M().phase == Copying(n) && Locked(x, c.start, ByLogger)
      modifies this`run, this`acts, bc
      ensures Valid() && Extends() && M().lh == old(M()).lh && M().history == old(M()).history && Locked(x, c.start, ByLogger)
      ensures M().phase == Installing(0) && M().held == old(M()).held && M().claim == old(M()).claim && M().dirty == old(M()).dirty
    {
      var hb := NewHeader(x);
      CommitPoint(c, M(), hb);
      WriteBlock(x, c.start, hb, false, CommitHead, Committed(c, M(), hb));
    }

    method ClearHeader(x: int, recovering: bool)
      requires Valid() && M().phase == (if recovering then Recovering(n) else Installing(n)) && Locked(x, c.start, ByLogger)
      modifies this`n, this`run, this`acts, bc
      ensures Valid() && Extends() && n == 0 && M().history == old(M()).history
      ensures M().phase == (if recovering then Running else Cleared) && M().held == old(M()).held && M().claim == old(M()).claim
      ensures M().dirty == {} && M().durable == old(M()).durable && Locked(x, c.start, ByLogger)
    {
      RunShape(c, init, run, acts, |run| - 1);
      Reservation(c, init, run, acts, |run| - 1);
      n := 0;
      assert block[..n] == [];
      var hb := NewHeader(x);
      Erases(c, M(), hb, recovering);
      WriteBlock(x, c.start, hb, false, if recovering then RecoverClear else ClearHead, Erased(c, M(), hb, recovering));
    }

    /** lh.n = 0 and write_head: the transaction is erased from the log. */
    method EraseHead(x0: int, recovering: bool) returns (out: Out, x: int)
      requires Valid() && M().phase == (if recovering then Recovering(n) else Installing(n)) && (x0 != -1 ==> Claimed(x0, c.start))
      modifies this`n, this`run, this`acts, bc
      ensures Valid() && Extends() && M().history == old(M()).history
      ensures out == Got ==> n == 0 && M().phase == if recovering then Running else Cleared
      ensures out == Got ==> M().dirty == {} && M().durable == old(M()).durable
      ensures out == Waits ==> n == old(n) && M().phase == old(M()).phase && x != -1 && Claimed(x, c.start)
      ensures Alone(old(M())) && x0 == -1 && (recovering || old(n) < NBUF) ==> out == Got && Alone(M())
    {
      out, x := GetHeader(x0);
      if out != Got { return; }
      ClearHeader(x, recovering);
      Brelse(x, c.start, ByLogger);
    }

    // ---------- install_trans ----------

    function InstPhase(recovering: bool, tail: nat): Phase { if recovering then Recovering(tail) else Installing(tail) }

    method InstLocked(recovering: bool, tail: nat, x: int, y: int)
      requires Valid() && M().phase == InstPhase(recovering, tail) && tail < n && Both(x, y, c.start + tail + 1, block[tail])
      modifies this`run, this`acts, bc
      ensures Valid() && Extends() && SameGroup(old(M()), M()) && M().phase == InstPhase(recovering, tail + 1)
      ensures PairOnly(old(M()), c.start + tail + 1, block[tail]) ==> Alone(M())
    {
      RunShape(c, init, run, acts, |run| - 1);
      Reservation(c, init, run, acts, |run| - 1);
      assert M().lh[tail] == block[tail];
      Installs(c, M(), tail, recovering);
      Move(x, y, c.start + tail + 1, block[tail], !recovering, if recovering then RecoverInstall else Install, PutHome(c, M(), tail, recovering));
    }

    method InstOne(recovering: bool, tail: nat, at: At) returns (out: Out, at': At)
      requires Valid() && M().phase == InstPhase(recovering, tail) && tail < n && AtOk(at, c.start + tail + 1, block[tail])
      modifies this`run, this`acts, bc
      ensures Valid() && Extends() && SameGroup(old(M()), M())
      ensures M().phase == InstPhase(recovering, if out == Got then tail + 1 else tail)
      ensures out == Waits ==> AtOk(at', c.start + tail + 1, block[tail])
      ensures Alone(old(M())) && at.Nowhere? && (recovering || n < NBUF) ==> out == Got && Alone(M())
    {
      var x, y;
      RunShape(c, init, run, acts, |run| - 1);
      assert M().lh[tail] == block[tail];
      assert !recovering ==> Pinned(M(), block[tail]);
      out, at', x, y := Pair(c.start + tail + 1, block[tail], at);
      if out == Got { InstLocked(recovering, tail, x, y); }
    }

    ghost predicate InstOk(recovering: bool, tail: nat, at: At)
      reads this, block, bc
      requires run != [] && n <= LOGSIZE == block.Length
    {
      M().phase == InstPhase(recovering, tail) && tail <= n && if tail < n then AtOk(at, c.start + tail + 1, block[tail]) else at.Nowhere?
    }

    /** Copy the logged blocks from the log area to their homes. */
    method InstallTrans(recovering: bool, tail0: nat, at0: At) returns (out: Out, tail: nat, at: At)
      requires Valid() && InstOk(recovering, tail0, at0)
      modifies this`run, this`acts, bc
      ensures Valid() && Extends() && SameGroup(old(M()), M())
      ensures M().phase == InstPhase(recovering, tail) && (out == Waits ==> InstOk(recovering, tail, at)) && (out == Got ==> tail == n)
      ensures Alone(old(M())) && at0.Nowhere? && (recovering || n < NBUF) ==> out == Got && Alone(M())
    {
      out, tail, at := Got, tail0, at0;
      while tail < n
        invariant Valid() && Extends() && SameGroup(old(M()), M()) && InstOk(recovering, tail, at)
        invariant out == Got && (Alone(old(M())) && at0.Nowhere? && (recovering || n < NBUF) ==> Alone(M()) && at.Nowhere?)
      {
        out, at := InstOne(recovering, tail, at);
        if out != Got { return; }
        tail, at := tail + 1, Nowhere;
      }
    }

    // ---------- commit, end_op ----------

    ghost predicate StageOk(stage: Stage)
      reads this, block, bc
      requires run != [] && n <= LOGSIZE == block.Length
    {
      match stage
      case Copy(tail, at) => CopyOk(tail, at)
      case Head(x) => M().phase == Copying(n) && (x != -1 ==> Claimed(x, c.start))
      case Inst(tail, at) => InstOk(false, tail, at)
      case Erase(x) => M().phase == Installing(n) && (x != -1 ==> Claimed(x, c.start))
      case Done => M().phase.Cleared?
    }

    /** The first half of commit, up to the commit point. */
    method CommitLog(stage: Stage) returns (out: Out, stage': Stage)
      requires Valid() && StageOk(stage)
      modifies this`run, this`acts, bc
      ensures Valid() && Extends() && M().history == old(M()).history && M().lh == old(M()).lh
      ensures out == Got ==> StageOk(stage') && !stage'.Copy? && !stage'.Head?
      ensures out == Waits ==> StageOk(stage')
      ensures Alone(old(M())) && stage == Copy(0, Nowhere) && n > 0 ==>
                if n < NBUF then out == Got && stage' == Inst(0, Nowhere) && Alone(M()) else out == Panics
      ensures stage == Done ==> out == Got && stage' == Done && M() == old(M())
    {
      out, stage' := Got, stage;
      if stage'.Copy? {
        var tail, at;
        out, tail, at := WriteLog(stage'.tail, stage'.at);
        if out != Got { return out, Copy(tail, at); }
        stage' := Head(-1);
      }
      if stage'.Head? {
        var x;
        out, x := WriteHead(stage'.x);
        if out != Got { return out, Head(x); }
        stage' := Inst(0, Nowhere);
      }
    }

    /** The second half of commit. */
    method CommitInstall(stage: Stage) returns (out: Out, stage': Stage)
      requires Valid() && StageOk(stage) && !stage.Copy? && !stage.Head?
      modifies this`n, this`run, this`acts, bc
      ensures Valid() && Extends() && M().history == old(M()).history
      ensures out == Got ==> M().phase.Cleared?
      ensures out == Waits ==> StageOk(stage')
      ensures Alone(old(M())) && stage == Inst(0, Nowhere) && old(n) < NBUF ==> out == Got && Alone(M())
      ensures stage == Done ==> out == Got && M() == old(M())
    {
      out, stage' := Got, stage;
      if stage'.Inst? {
        var tail, at;
        out, tail, at := InstallTrans(false, stage'.tail, stage'.at);
        if out != Got { return out, Inst(tail, at); }
        stage' := Erase(-1);
      }
      if stage'.Erase? {
        var x;
        out, x := EraseHead(stage'.x, false);
        if out != Got { return out, Erase(x); }
        stage' := Done;
      }
    }

    /** commit, from the stage an earlier call has reached. */
    method Commit(stage: Stage) returns (out: Out, stage': Stage)
      requires Valid() && StageOk(stage)
      modifies this`n, this`run, this`acts, bc
      ensures Valid() && Extends() && M().history == old(M()).history
      ensures out == Got ==> n == 0 && M().phase.Cleared? && M().durable == |M().history|
      ensures out == Waits ==> StageOk(stage')
      ensures Alone(old(M())) && stage == Copy(0, Nowhere) && old(n) > 0 ==>
                if old(n) < NBUF then out == Got && Alone(M()) else out == Panics
      ensures stage == Done ==> out == Got && M() == old(M())
    {
      out, stage' := CommitLog(stage);
      if out != Got { return; }
      out, stage' := CommitInstall(stage');
      if out == Got { RunShape(c, init, run, acts, |run| - 1); }
    }

    /** The rest of end_op of the last operation, from the stage an earlier call has reached. */
    method FinishCommit(stage: Stage) returns (out: Out, stage': Stage)
      requires Valid() && StageOk(stage)
      modifies this`n, this`committing, this`run, this`acts, bc
      ensures Valid() && Extends() && M().history == old(M()).history
      ensures out == Got ==> M().phase.Running? && !committing && M().durable == |M().history|
      ensures out == Got ==> n == 0 && SameHome(c, bc.disk, Replay(init, M().history, |M().history|))
      ensures out == Waits ==> StageOk(stage')
      ensures Alone(old(M())) && (stage == Done || (stage == Copy(0, Nowhere) && old(n) > 0)) ==>
                if stage == Done || old(n) < NBUF then out == Got && Alone(M()) else out == Panics
    {
      out, stage' := Commit(stage);
      if out != Got { return; }
      committing := false;
      ghost var t := M().(phase := Running);
      TiedSame(M(), t, bc.S());
      Record(Finish, t);
      RecoveredAndCommitted(c, init, run, acts, |acts| - 1);
    }

    /** The first part of end_op, under the lock. */
    method Leave(ghost i: nat)
      requires Valid() && M().phase.Running? && i < |M().ops|
      requires forall b :: b in M().held ==> M().held[b] != ByOp(M().ops[i].id)
      modifies this`outstanding, this`committing, this`run, this`acts
      ensures Valid() && Extends() && outstanding == old(outstanding) - 1
      ensures M() == old(M()).(ops := old(M()).ops[..i] + old(M()).ops[i + 1..], phase := M().phase)
      ensures M().phase == if outstanding > 0 then Running else if n == 0 then Cleared else Copying(0)
    {
      ghost var s := M();
      ghost var t := s.(ops := s.ops[..i] + s.ops[i + 1..],
                        phase := if |s.ops| > 1 then Running else if s.lh == [] then Cleared else Copying(0));
      TiedSame(s, t, bc.S());
      outstanding := outstanding - 1;
      committing := outstanding == 0;
      Record(End(i), t);
    }

    /** Operation i ends; the last one out commits the group.  Alone, the commit completes unless the
        list is full: then it panics. */
    method EndOp(ghost i: nat) returns (out: Out, stage: Stage)
      requires Valid() && M().phase.Running? && i < |M().ops|
      requires forall b :: b in M().held ==> M().held[b] != ByOp(M().ops[i].id)
      modifies this`n, this`outstanding, this`committing, this`run, this`acts, bc
      ensures Valid() && Extends() && M().history == old(M()).history && outstanding == old(outstanding) - 1
      ensures outstanding > 0 ==> out == Got && M().phase.Running? && bc.disk == old(bc.disk)
      ensures outstanding == 0 && out == Got ==> M().phase.Running? && SameHome(c, bc.disk, Replay(init, M().history, |M().history|))
      ensures outstanding == 0 && out == Got ==> n == 0 && M().durable == |M().history|
      ensures out == Waits ==> committing && StageOk(stage)
      ensures outstanding == 0 && Alone(old(M())) ==> out != Waits && (out == Panics <==> old(n) == NBUF)
    {
      Leave(i);
      out, stage := Got, if n > 0 then Copy(0, Nowhere) else Done;
      if committing { out, stage := FinishCommit(stage); }
    }

    // ---------- crash and recovery ----------

    /** Power is lost: memory is gone, the disk stays. */
    method Crash()
      requires Valid()
      modifies this
      ensures Valid() && Extends() && M().phase.Boot? && bc.disk == old(bc.disk) && fresh(bc) && Alone(M())
      ensures old(M().durable) <= |old(M().history)|
      ensures M().history == old(M().history)[..old(M().durable)]
    {
      RunShape(c, init, run, acts, |run| - 1);
      ghost var s := M();
      bc := new Bcache.Bcache(bc.disk);
      n, outstanding, committing := 0, 0, false;
      ghost var t := s.(cache := map[], held := map[], claim := multiset{}, dirty := {}, lh := [], ops := [], phase := Boot,
                        base := s.nextOp, history := s.history[..s.durable]);
      forall x | 0 <= x < NBUF ensures TiedAt(t, bc.S(), x) { assert bc.At(x); }
      Record(Action.Crash, t);
    }

    method ReadEntries(hb: Block)
      requires block.Length == LOGSIZE && 0 <= hb[0] <= LOGSIZE
      modifies this`n, block
      ensures n <= LOGSIZE && block[..n] == LogMachine.Head(hb)
    {
      n := hb[0];
      var i := 0;
      while i < n
        modifies block
        invariant i <= n <= LOGSIZE && block[..i] == hb[1..1 + i]
      {
        block[i] := hb[1 + i];
        i := i + 1;
      }
    }

    method Load(x: int)
      requires Valid() && M().phase.Boot? && Locked(x, c.start, ByLogger)
      modifies this`n, this`run, this`acts, block
      ensures Valid() && Extends() && Locked(x, c.start, ByLogger)
      ensures M() == old(M()).(phase := Recovering(0), lh := block[..n])
      ensures c.start < |bc.disk| && block[..n] == LogMachine.Head(bc.disk[c.start])
    {
      RunShape(c, init, run, acts, |run| - 1);
      DataIs(x, c.start, ByLogger);
      ReadEntries(bc.buf[x].data);
      ghost var t := M().(lh := block[..n], phase := Recovering(0));
      TiedSame(M(), t, bc.S());
      Record(ReadHead, t);
    }

    method LoadAndRelease(x: int)
      requires Valid() && M().phase.Boot? && Locked(x, c.start, ByLogger) && OneOnly(M(), c.start)
      modifies this`n, this`run, this`acts, block, bc
      ensures Valid() && Extends() && M().phase == Recovering(0) && M().history == old(M()).history && Alone(M())
      ensures bc.disk == old(bc.disk) && c.start < |bc.disk| && block[..n] == LogMachine.Head(bc.disk[c.start])
    {
      Load(x);
      RunIdle(c, init, run, acts, |run| - 1);
      Brelse(x, c.start, ByLogger);
    }

    /** read_head, by the only process that uses the file system yet. */
    method ReadHeader()
      requires Valid() && M().phase.Boot? && Alone(M())
      modifies this`n, this`run, this`acts, block, bc
      ensures Valid() && Extends() && M().phase == Recovering(0) && M().history == old(M()).history && Alone(M())
      ensures bc.disk == old(bc.disk) && c.start < |bc.disk| && block[..n] == LogMachine.Head(bc.disk[c.start])
    {
      var out, x := GetHeader(-1);
      LoadAndRelease(x);
    }

    /** install_trans and the write_head of recovery. */
    method InstallAndErase()
      requires Valid() && M().phase == Recovering(0) && Alone(M())
      modifies this`n, this`run, this`acts, bc
      ensures Valid() && Extends() && M().phase.Running? && n == 0 && Alone(M()) && M().dirty == {}
      ensures M().history == old(M()).history && M().durable == |M().history|
    {
      RunIdle(c, init, run, acts, |run| - 1);
      var out, tail, at := InstallTrans(true, 0, Nowhere);
      var x;
      out, x := EraseHead(-1, true);
    }

    /** recover_from_log: it needs no more buffers than there are, and afterwards the disk holds
        exactly the committed groups. */
    method RecoverFromLog()
      requires Valid() && M().phase.Boot? && Alone(M())
      modifies this`n, this`run, this`acts, block, bc
      ensures Valid() && Extends() && M().phase.Running? && n == 0 && Alone(M())
      ensures M().history == old(M()).history && SameHome(c, bc.disk, Replay(init, M().history, |M().history|))
    {
      ReadHeader();
      InstallAndErase();
      RunClean(c, init, run, acts);
    }
  }
}
