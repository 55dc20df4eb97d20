/** When log_write and bget panic: which runs lead there, and the exact conditions. */
module LogPanics {
  import opened LogMachine
  import opened LogProof
  import opened LogRuns

  // ---------- the panic in log_write ----------

  /** Operation k, within its reservation, calls log_write on a block that it holds, and the
      log is too full. */
  ghost predicate PanicsNow(c: Config, s: State, k: nat, b: nat) {
    s.phase.Running? && Holds(s, k, b) && Home(c, b) && (b in s.lh || s.ops[k].added < MAXOPBLOCKS) && TooBig(c, s)
  }

  /** In no run does a call that would append an entry panic. */
  ghost predicate AppendPanicFree(c: Config, init: seq<Block>) {
    forall run: seq<State>, acts: seq<Action>, i: int, k: nat, b: nat ::
      IsRun(c, init, run, acts) && 0 <= i < |run| && b !in run[i].lh ==> !PanicsNow(c, run[i], k, b)
  }

  /** In no run does a call for a block that is listed already panic. */
  ghost predicate AbsorbPanicFree(c: Config, init: seq<Block>) {
    forall run: seq<State>, acts: seq<Action>, i: int, k: nat, b: nat ::
      IsRun(c, init, run, acts) && 0 <= i < |run| && b in run[i].lh ==> !PanicsNow(c, run[i], k, b)
  }

  function Capacity(c: Config): int { if c.size - 1 < LOGSIZE then c.size - 1 else LOGSIZE }

  lemma UnusedPositive(ops: seq<Op>, k: nat)
    requires forall i :: 0 <= i < |ops| ==> ops[i].added <= MAXOPBLOCKS
    requires k < |ops| && ops[k].added < MAXOPBLOCKS
    ensures Unused(ops) >= 1
  {
    UnusedAt(ops, k);
    UnusedBound(ops[..k]);
    UnusedBound(ops[k + 1..]);
  }

  /** In every state of every run, a call of log_write within its reservation panics exactly if the
      list has reached the log's capacity; in a log of LOGSIZE + 1 blocks that is exactly if the
      list is full, and then the block is listed and every operation has spent its reservation. */
  lemma PanicsExactly(c: Config, init: seq<Block>, run: seq<State>, acts: seq<Action>, i: nat, k: nat, b: nat)
    requires IsRun(c, init, run, acts) && i < |run| && run[i].phase.Running? && Holds(run[i], k, b) && Home(c, b)
    requires b in run[i].lh || run[i].ops[k].added < MAXOPBLOCKS
    ensures PanicsNow(c, run[i], k, b) <==> |run[i].lh| == Capacity(c)
    ensures PanicsNow(c, run[i], k, b) && c.size >= LOGSIZE + 1 ==>
              |run[i].lh| == LOGSIZE && b in run[i].lh && forall j :: 0 <= j < |run[i].ops| ==> run[i].ops[j].added == MAXOPBLOCKS
  {
    RunInv(c, init, run, acts, i);
    forall j | 0 <= j < |run[i].ops| && run[i].ops[j].added < MAXOPBLOCKS ensures Unused(run[i].ops) >= 1 { UnusedPositive(run[i].ops, j); }
  }

  // ---------- runs that fill the log ----------

  /** Three operations began and n blocks were logged; the cache has those blocks and no others. */
  ghost predicate Filled(c: Config, s: State, n: nat) {
    && s.phase.Running? && |s.disk| == c.nblocks && |s.ops| == 3 && Quiet(s)
    && |s.lh| == n && (forall i :: 0 <= i < n ==> s.lh[i] == c.start + c.size + i)
    && |s.cache| == n && (forall b :: b in s.cache ==> b in s.lh)
    && (forall j :: 0 <= j < 3 ==> s.ops[j].added == if n <= 10 * j then 0 else if n >= 10 * j + 10 then 10 else n - 10 * j)
  }

  /** Nobody is at any buffer. */
  ghost predicate Quiet(s: State) { s.held == map[] && s.claim == multiset{} && s.dirty == {} }

  /** Operation j gets hold of block b. */
  lemma Hold(c: Config, init: seq<Block>, run: seq<State>, acts: seq<Action>, j: nat, b: nat)
    returns (run': seq<State>, acts': seq<Action>)
    requires IsRun(c, init, run, acts)
    requires var s := run[|run| - 1];
             s.phase.Running? && Quiet(s) && j < |s.ops| && b < |s.disk| && (b in s.cache || |s.cache| < NBUF)
    ensures IsRun(c, init, run', acts')
    ensures var s, t := run[|run| - 1], run'[|run'| - 1];
            t == s.(cache := s.cache[b := View(s, b)], held := map[b := ByOp(s.ops[j].id)])
  {
    var s := run[|run| - 1];
    var s1 := s.(cache := s.cache[b := View(s, b)], claim := multiset{b});
    assert s.claim + multiset{b} == multiset{b};
    Extend(c, init, run, acts, Get(b), s1);
    run', acts' := run + [s1], acts + [Get(b)];
    var who := ByOp(s.ops[j].id);
    var s2 := s1.(claim := multiset{}, held := map[b := who]);
    assert s1.claim - multiset{b} == multiset{} && s1.held[b := who] == map[b := who] && InProgress(s1.ops, who.id);
    Extend(c, init, run', acts', Lock(b, who), s2);
    run', acts' := run' + [s2], acts' + [Lock(b, who)];
  }

  /** Operation j locks block b, logs it and releases it. */
  /** The two halves of brelse. */
  lemma LetGo(c: Config, init: seq<Block>, run: seq<State>, acts: seq<Action>, h: nat) returns (run': seq<State>, acts': seq<Action>)
    requires IsRun(c, init, run, acts)
    requires var s := run[|run| - 1]; s.held.Keys == {h} && s.claim == multiset{} && h !in s.dirty
    ensures IsRun(c, init, run', acts') && run'[|run'| - 1] == run[|run| - 1].(held := map[])
  {
    var s := run[|run| - 1];
    var s1 := s.(held := map[], claim := multiset{h});
    assert s.held - {h} == map[];
    Extend(c, init, run, acts, Unlock(h), s1);
    run', acts' := run + [s1], acts + [Unlock(h)];
    var s2 := s1.(claim := multiset{});
    Extend(c, init, run', acts', Drop(h), s2);
    run', acts' := run' + [s2], acts' + [Drop(h)];
  }

  lemma LogOne(c: Config, init: seq<Block>, run: seq<State>, acts: seq<Action>, j: nat, b: nat)
    returns (run': seq<State>, acts': seq<Action>)
    requires IsRun(c, init, run, acts)
    requires var s := run[|run| - 1];
             && s.phase.Running? && Quiet(s) && j < |s.ops| && b < |s.disk| && Home(c, b) && b !in s.lh && |s.cache| < NBUF
             && s.ops[j].added < MAXOPBLOCKS && !TooBig(c, s)
    ensures IsRun(c, init, run', acts')
    ensures var s, t := run[|run| - 1], run'[|run'| - 1];
            t == s.(cache := s.cache[b := View(s, b)], lh := s.lh + [b], ops := s.ops[j := s.ops[j].(added := s.ops[j].added + 1)])
  {
    var s := run[|run| - 1];
    run', acts' := Hold(c, init, run, acts, j, b);
    var s1 := run'[|run'| - 1];
    var s2 := s1.(lh := s1.lh + [b], ops := s1.ops[j := s1.ops[j].(added := s1.ops[j].added + 1)]);
    assert s1.dirty - {b} == s1.dirty;
    Extend(c, init, run', acts', LogWrite(j, b), s2);
    run', acts' := run' + [s2], acts' + [LogWrite(j, b)];
    run', acts' := LetGo(c, init, run', acts', b);
  }

  lemma FillOne(c: Config, init: seq<Block>, run: seq<State>, acts: seq<Action>, n: nat)
    returns (run': seq<State>, acts': seq<Action>)
    requires IsRun(c, init, run, acts) && Filled(c, run[|run| - 1], n)
    requires n < Capacity(c) && c.start + c.size + LOGSIZE <= c.nblocks
    ensures IsRun(c, init, run', acts') && Filled(c, run'[|run'| - 1], n + 1)
  {
    var s, b := run[|run| - 1], c.start + c.size + n;
    assert s.ops[n / 10].added == n - 10 * (n / 10);
    assert b !in s.lh && b !in s.cache;
    run', acts' := LogOne(c, init, run, acts, n / 10, b);
    assert (s.lh + [b])[n] == b;
  }

  lemma Boot(c: Config, init: seq<Block>) returns (run: seq<State>, acts: seq<Action>)
    requires ValidConfig(c) && |init| == c.nblocks && init[c.start][0] == 0
    ensures IsRun(c, init, run, acts)
    ensures run[|run| - 1] == State(init, map[c.start := init[c.start]], map[c.start := ByLogger], multiset{}, {}, [], [], Phase.Boot, 0, 0, [], 0)
  {
    var h := c.start;
    var s0 := State(init, map[], map[], multiset{}, {}, [], [], Phase.Boot, 0, 0, [], 0);
    var s1 := s0.(cache := map[h := init[h]], claim := multiset{h});
    var s2 := s1.(claim := multiset{}, held := map[h := ByLogger]);
    run, acts := [s0], [];
    assert s0.claim + multiset{h} == multiset{h};
    Extend(c, init, run, acts, Get(h), s1);
    run, acts := run + [s1], acts + [Get(h)];
    assert s1.claim - multiset{h} == multiset{};
    Extend(c, init, run, acts, Lock(h, ByLogger), s2);
    run, acts := run + [s2], acts + [Lock(h, ByLogger)];
  }

  lemma BootAndBegin(c: Config, init: seq<Block>) returns (run: seq<State>, acts: seq<Action>)
    requires ValidConfig(c) && |init| == c.nblocks && init[c.start][0] == 0
    ensures IsRun(c, init, run, acts) && Filled(c, run[|run| - 1], 0)
  {
    run, acts := Boot(c, init);
    var h, s2 := c.start, run[|run| - 1];
    var s3 := s2.(phase := Recovering(0));
    assert Head(init[h]) == [];
    Extend(c, init, run, acts, ReadHead, s3);
    run, acts := run + [s3], acts + [ReadHead];
    var s4 := Bwrite(s3, h, PutHead(View(s3, h), [])).(phase := Running, lh := []);
    Extend(c, init, run, acts, RecoverClear, s4);
    run, acts := run + [s4], acts + [RecoverClear];
    run, acts := LetGoAndEvict(c, init, run, acts, h);
    run, acts := BeginThree(c, init, run, acts);
  }

  lemma LetGoAndEvict(c: Config, init: seq<Block>, run: seq<State>, acts: seq<Action>, h: nat) returns (run': seq<State>, acts': seq<Action>)
    requires IsRun(c, init, run, acts)
    requires var s := run[|run| - 1];
             s.phase.Running? && s.lh == [] && s.held.Keys == {h} && s.cache.Keys == {h} && s.claim == multiset{} && s.dirty == {}
    ensures IsRun(c, init, run', acts') && run'[|run'| - 1] == run[|run| - 1].(held := map[], cache := map[])
  {
    run', acts' := LetGo(c, init, run, acts, h);
    var s5 := run'[|run'| - 1];
    var s6 := s5.(cache := map[]);
    assert s5.cache - {h} == map[];
    Extend(c, init, run', acts', Evict(h), s6);
    run', acts' := run' + [s6], acts' + [Evict(h)];
  }

  lemma BeginThree(c: Config, init: seq<Block>, run: seq<State>, acts: seq<Action>) returns (run': seq<State>, acts': seq<Action>)
    requires IsRun(c, init, run, acts)
    requires var s := run[|run| - 1]; s.phase.Running? && s.lh == [] && s.ops == [] && Quiet(s) && s.cache == map[] && s.nextOp == 0
    requires |run[|run| - 1].disk| == c.nblocks
    ensures IsRun(c, init, run', acts') && Filled(c, run'[|run'| - 1], 0)
  {
    var s := run[|run| - 1];
    var s1 := s.(ops := s.ops + [Op(0, 0)], nextOp := 1);
    var s2 := s1.(ops := s1.ops + [Op(1, 0)], nextOp := 2);
    var s3 := s2.(ops := s2.ops + [Op(2, 0)], nextOp := 3);
    Extend(c, init, run, acts, Begin, s1);
    run', acts' := run + [s1], acts + [Begin];
    Extend(c, init, run', acts', Begin, s2);
    run', acts' := run' + [s2], acts' + [Begin];
    Extend(c, init, run', acts', Begin, s3);
    run', acts' := run' + [s3], acts' + [Begin];
  }

  /** Up to its capacity the log can be filled. */
  lemma FillUp(c: Config, init: seq<Block>) returns (run: seq<State>, acts: seq<Action>)
    requires ValidConfig(c) && |init| == c.nblocks && init[c.start][0] == 0 && c.start + c.size + LOGSIZE <= c.nblocks
    ensures IsRun(c, init, run, acts) && Filled(c, run[|run| - 1], Capacity(c))
  {
    run, acts := BootAndBegin(c, init);
    var n := 0;
    while n < Capacity(c)
      invariant n <= Capacity(c)
      invariant IsRun(c, init, run, acts) && Filled(c, run[|run| - 1], n)
    {
      run, acts := FillOne(c, init, run, acts, n);
      n := n + 1;
    }
  }

  /** A log of LOGSIZE blocks or fewer has a run in which an operation with reservation left reaches the panic. */
  lemma ShortLogPanics(c: Config, init: seq<Block>) returns (run: seq<State>, acts: seq<Action>, k: nat, b: nat)
    requires ValidConfig(c) && |init| == c.nblocks && init[c.start][0] == 0
    requires c.size <= LOGSIZE && c.start + c.size + LOGSIZE <= c.nblocks
    ensures IsRun(c, init, run, acts) && PanicsNow(c, run[|run| - 1], k, b) && b !in run[|run| - 1].lh
  {
    run, acts := FillUp(c, init);
    var n := c.size - 1;
    k, b := n / 10, c.start + c.size + n;
    var s := run[|run| - 1];
    assert s.ops[k].added < MAXOPBLOCKS && b !in s.lh;
    run, acts := Hold(c, init, run, acts, k, b);
  }

  /** In a log of any size above one block there is a run in which logging a listed block again panics. */
  lemma AbsorbingPanics(c: Config, init: seq<Block>) returns (run: seq<State>, acts: seq<Action>, b: nat)
    requires ValidConfig(c) && |init| == c.nblocks && init[c.start][0] == 0
    requires c.size >= 2 && c.start + c.size + LOGSIZE <= c.nblocks
    ensures IsRun(c, init, run, acts) && PanicsNow(c, run[|run| - 1], 0, b) && b in run[|run| - 1].lh
  {
    run, acts := FillUp(c, init);
    var s := run[|run| - 1];
    b := s.lh[0];
    RunInv(c, init, run, acts, |run| - 1);
    assert Pinned(s, b);
    run, acts := Hold(c, init, run, acts, 0, b);
  }

  /** On a disk with LOGSIZE blocks behind the log, a call that appends is panic-free exactly when the
      log area has room for LOGSIZE data blocks and the header. */
  lemma AppendPanicFreeIff(c: Config, init: seq<Block>)
    requires ValidConfig(c) && |init| == c.nblocks && init[c.start][0] == 0
    requires c.start + c.size + LOGSIZE <= c.nblocks
    ensures AppendPanicFree(c, init) <==> c.size >= LOGSIZE + 1
  {
    if c.size >= LOGSIZE + 1 {
      forall run: seq<State>, acts: seq<Action>, i: int, k: nat, b: nat | IsRun(c, init, run, acts) && 0 <= i < |run| && b !in run[i].lh
        ensures !PanicsNow(c, run[i], k, b)
      {
        if PanicsNow(c, run[i], k, b) { PanicsExactly(c, init, run, acts, i, k, b); }
      }
    } else {
      var run, acts, k, b := ShortLogPanics(c, init);
      assert IsRun(c, init, run, acts) && PanicsNow(c, run[|run| - 1], k, b);
    }
  }

  /** A call for a listed block is panic-free only in a log in which no block can be listed. */
  lemma AbsorbPanicFreeIff(c: Config, init: seq<Block>)
    requires ValidConfig(c) && |init| == c.nblocks && init[c.start][0] == 0
    requires c.start + c.size + LOGSIZE <= c.nblocks
    ensures AbsorbPanicFree(c, init) <==> c.size == 1
  {
    if c.size == 1 {
      forall run: seq<State>, acts: seq<Action>, i: int, b: nat | IsRun(c, init, run, acts) && 0 <= i < |run| ensures b !in run[i].lh {
        RunInv(c, init, run, acts, i);
      }
    } else {
      var run, acts, b := AbsorbingPanics(c, init);
      assert IsRun(c, init, run, acts) && PanicsNow(c, run[|run| - 1], 0, b);
    }
  }

  // ---------- the panic in bget ----------

  /** The users of a state's buffers that no pin accounts for. */
  ghost function Unpinned(s: State): set<int> { set b | b in s.cache && !Pinned(s, b) && (b in s.held || s.claim[b] > 0) }

  ghost function PinnedBlocks(s: State): set<int> { set b | b in s.cache && Pinned(s, b) }

  lemma AllUsed(s: State)
    requires CacheInv(s)
    ensures |PinnedBlocks(s)| + |Unpinned(s)| == NBUF <==> |s.cache| == NBUF && forall x :: x in s.cache ==> Used(s, x)
  {
    var p, u, all := PinnedBlocks(s), Unpinned(s), s.cache.Keys;
    assert |p + u| == |p| + |u|;
    SubsetSize(p + u, all);
    assert |all| == |s.cache|;
    if |p + u| == NBUF {
      assert p + u == all;
      assert forall x :: x in s.cache ==> x in p + u;
    }
    if forall x :: x in s.cache ==> Used(s, x) { assert p + u == all; }
  }

  /** In every state of every run, and for every block without a buffer: bget panics exactly if the pinned
      buffers and the other buffers in use are NBUF together; otherwise it can get a buffer, at once or
      by recycling one. */
  lemma BgetPanicsIff(c: Config, init: seq<Block>, run: seq<State>, acts: seq<Action>, i: nat, b: nat)
    requires IsRun(c, init, run, acts) && i < |run| && b < c.nblocks && b !in run[i].cache
    ensures var s := run[i];
            && (BgetPanics(s, b) <==> |PinnedBlocks(s)| + |Unpinned(s)| == NBUF)
            && (!BgetPanics(s, b) <==> |s.cache| < NBUF || exists x :: x in s.cache && !Used(s, x))
  {
    RunInv(c, init, run, acts, i);
    AllUsed(run[i]);
  }

  lemma {:induction false} ListSet(lh: seq<int>, n: nat)
    requires n <= |lh| && forall i, j :: 0 <= i < j < |lh| ==> DifferAt(lh, i, j)
    ensures |set i | 0 <= i < n :: lh[i]| == n
  {
    var a := set i | 0 <= i < n :: lh[i];
    if n == 0 {
      assert a == {};
    } else {
      ListSet(lh, n - 1);
      var a' := set i | 0 <= i < n - 1 :: lh[i];
      forall i | 0 <= i < n - 1 ensures lh[i] != lh[n - 1] { assert DifferAt(lh, i, n - 1); }
      assert a == a' + {lh[n - 1]} && lh[n - 1] !in a';
    }
  }

  /** While operations run and while their blocks are copied to the log, every listed block is pinned, and nothing else. */
  lemma PinnedCount(c: Config, init: seq<Block>, run: seq<State>, acts: seq<Action>, i: nat)
    requires IsRun(c, init, run, acts) && i < |run| && (run[i].phase.Running? || run[i].phase.Copying?)
    ensures |PinnedBlocks(run[i])| == |run[i].lh|
  {
    RunInv(c, init, run, acts, i);
    var s := run[i];
    ListSet(s.lh, |s.lh|);
    assert PinnedBlocks(s) == set k | 0 <= k < |s.lh| :: s.lh[k];
  }

  /** The commit of a full log: three operations log ten blocks each and end; all NBUF buffers are pinned,
      and write_log's first bread finds no buffer. */
  lemma FullCommitPanics(c: Config, init: seq<Block>) returns (run: seq<State>, acts: seq<Action>)
    requires ValidConfig(c) && |init| == c.nblocks && init[c.start][0] == 0
    requires c.size >= LOGSIZE + 1 && c.start + c.size + LOGSIZE <= c.nblocks
    ensures IsRun(c, init, run, acts)
    ensures var s := run[|run| - 1]; s.phase == Copying(0) && |s.lh| == LOGSIZE && BgetPanics(s, c.start + 1)
  {
    run, acts := FillUp(c, init);
    var s := run[|run| - 1];
    var s1 := s.(ops := s.ops[1..]);
    assert s.ops[..0] + s.ops[1..] == s.ops[1..];
    Extend(c, init, run, acts, End(0), s1);
    run, acts := run + [s1], acts + [End(0)];
    var s2 := s1.(ops := s1.ops[1..]);
    assert s1.ops[..0] + s1.ops[1..] == s1.ops[1..];
    Extend(c, init, run, acts, End(0), s2);
    run, acts := run + [s2], acts + [End(0)];
    var s3 := s2.(ops := [], phase := Copying(0));
    assert s2.ops[..0] + s2.ops[1..] == [];
    Extend(c, init, run, acts, End(0), s3);
    run, acts := run + [s3], acts + [End(0)];
  }

  /** So without other users of the cache, the commit's first bread panics exactly if the list is as long as the cache. */
  lemma CommitPanicsIff(c: Config, init: seq<Block>, run: seq<State>, acts: seq<Action>, i: nat, b: nat)
    requires IsRun(c, init, run, acts) && i < |run| && run[i].phase.Copying? && b < c.nblocks && b !in run[i].cache && Unpinned(run[i]) == {}
    ensures BgetPanics(run[i], b) <==> |run[i].lh| == NBUF
  {
    BgetPanicsIff(c, init, run, acts, i, b);
    PinnedCount(c, init, run, acts, i);
  }

  // ---------- a commit or a recovery that nobody disturbs ----------

  /** Nobody uses a buffer, but for the pins. */
  ghost predicate Alone(m: State) { m.held == map[] && m.claim == multiset{} }

  /** No more than this many buffers are pinned. */
  ghost function Pins(m: State): nat {
    if m.phase.Running? || m.phase.Copying? || m.phase.Installing? then |m.lh| else 0
  }

  lemma {:induction false} ElementsBound(s: seq<int>)
    ensures |set b | b in s| <= |s|
  {
    if s == [] {
      assert (set b | b in s) == {};
    } else {
      ElementsBound(s[1..]);
      assert (set b | b in s) == {s[0]} + (set b | b in s[1..]);
    }
  }

  /** With fewer users than buffers there is always one to recycle. */
  lemma FewUsers(m: State, b: int)
    requires CacheInv(m) && m.claim == multiset{} && |m.held| + Pins(m) < NBUF
    ensures !BgetPanics(m, b)
  {
    if BgetPanics(m, b) {
      var pinned := set x | x in m.lh && Pinned(m, x);
      ElementsBound(m.lh);
      SubsetSize(pinned, set x | x in m.lh);
      assert Pins(m) == 0 ==> pinned == {};
      forall x | x in m.cache ensures x in m.held.Keys + pinned { assert Used(m, x); }
      SubsetSize(m.cache.Keys, m.held.Keys + pinned);
    }
  }

  /** With a full list the pins alone use all the buffers. */
  lemma FullList(c: Config, init: seq<Block>, run: seq<State>, acts: seq<Action>, b: nat)
    requires IsRun(c, init, run, acts) && b < c.nblocks && !Home(c, b)
    requires var m := run[|run| - 1]; Alone(m) && m.phase.Copying? && |m.lh| == NBUF
    ensures BgetPanics(run[|run| - 1], b)
  {
    var m, i := run[|run| - 1], |run| - 1;
    RunInv(c, init, run, acts, i);
    PinnedCount(c, init, run, acts, i);
    SubsetSize(PinnedBlocks(m), m.cache.Keys);
    assert |m.cache.Keys| == |m.cache|;
    assert b !in m.lh;
    assert Unpinned(m) == {};
    CommitPanicsIff(c, init, run, acts, i, b);
  }

  /** Buffers enough for two blocks, of which b may be pinned already. */
  ghost predicate Enough(m: State, b: int) {
    Pins(m) < NBUF && (Pins(m) == 0 || Pinned(m, b))
  }

  ghost predicate OneOnly(m: State, a: int) { m.held == map[a := ByLogger] && m.claim == multiset{} }

  ghost predicate PairOnly(m: State, a: int, b: int) { m.held == map[a := ByLogger, b := ByLogger] && m.claim == multiset{} }

  lemma NextUser(m: State, a: int, b: int)
    requires CacheInv(m) && OneOnly(m, a) && Enough(m, b)
    ensures !BgetPanics(m, b)
  {
    if Pins(m) == 0 { FewUsers(m, b); }
  }

  /** An operation that has not spent its reservation finds room in a log of full size. */
  lemma AppendFits(c: Config, init: seq<Block>, run: seq<State>, acts: seq<Action>, i: nat)
    requires IsRun(c, init, run, acts) && c.size >= LOGSIZE + 1
    requires var s := run[|run| - 1]; i < |s.ops| && s.ops[i].added < MAXOPBLOCKS
    ensures !TooBig(c, run[|run| - 1])
  {
    RunInv(c, init, run, acts, |run| - 1);
    UnusedPositive(run[|run| - 1].ops, i);
  }

  /** install_trans unpins the block it has installed, and no other. */
  lemma Unpins(c: Config, m: State, t: State, tail: nat)
    requires GoodHead(c, m.lh) && tail < |m.lh| && t.lh == m.lh
    requires (m.phase, t.phase) in {(Installing(tail), Installing(tail + 1)), (Recovering(tail), Recovering(tail + 1))}
    ensures forall i :: i != m.lh[tail] ==> (Pinned(t, i) <==> Pinned(m, i))
    ensures !Pinned(t, m.lh[tail]) && (Pinned(m, m.lh[tail]) <==> m.phase.Installing?)
  {
    forall i | tail < i < |m.lh| ensures m.lh[i] != m.lh[tail] { assert DifferAt(m.lh, tail, i); }
  }

  /** The bwrite of a turn of install_trans, of commit or of recovery. */
  ghost function PutHome(c: Config, s: State, tail: nat, recovering: bool): State
    requires EntryAt(c, s, tail)
  {
    Bwrite(s, s.lh[tail], View(s, c.start + tail + 1)).(phase := if recovering then Recovering(tail + 1) else Installing(tail + 1))
  }

  lemma Installs(c: Config, s: State, tail: nat, recovering: bool)
    requires GoodHead(c, s.lh) && EntryAt(c, s, tail) && s.phase == if recovering then Recovering(tail) else Installing(tail)
    ensures var t := PutHome(c, s, tail, recovering);
            && Next(c, s, if recovering then RecoverInstall else Install, t)
            && (forall i :: i != s.lh[tail] ==> (Pinned(t, i) <==> Pinned(s, i)))
            && !Pinned(t, s.lh[tail]) && (Pinned(s, s.lh[tail]) <==> !recovering)
  {
    Unpins(c, s, PutHome(c, s, tail, recovering), tail);
  }

  /** The write_head that erases the transaction, of commit or of recovery; nothing is pinned any more. */
  ghost function Erased(c: Config, s: State, hb: Block, recovering: bool): State
    requires c.start < |s.disk|
  {
    Bwrite(s, c.start, hb).(phase := if recovering then Running else Cleared, lh := [])
  }

  lemma Erases(c: Config, s: State, hb: Block, recovering: bool)
    requires s.phase == (if recovering then Recovering(|s.lh|) else Installing(|s.lh|)) && c.start < |s.disk| && Mine(s, c.start)
    requires hb == PutHead(View(s, c.start), [])
    ensures Next(c, s, if recovering then RecoverClear else ClearHead, Erased(c, s, hb, recovering))
    ensures forall i :: !Pinned(s, i) && !Pinned(Erased(c, s, hb, recovering), i)
  {}

  /** The commit point; what is pinned stays pinned. */
  ghost function Committed(c: Config, s: State, hb: Block): State
    requires c.start < |s.disk|
  {
    Bwrite(s, c.start, hb).(phase := Installing(0), durable := |s.history|, base := s.nextOp)
  }

  lemma CommitPoint(c: Config, s: State, hb: Block)
    requires s.phase == Copying(|s.lh|) && |s.lh| <= LOGSIZE && c.start < |s.disk| && Mine(s, c.start)
    requires hb == PutHead(View(s, c.start), s.lh)
    ensures Next(c, s, CommitHead, Committed(c, s, hb))
    ensures forall i :: Pinned(s, i) <==> Pinned(Committed(c, s, hb), i)
  {}
}
