/** Crash atomicity and log-space reservation over every run of LogMachine. */
module LogProof {
  import opened LogMachine

  // ---------- the invariant ----------

  ghost predicate Shape(c: Config, s: State) {
    && ValidConfig(c) && |s.disk| == c.nblocks
    && GoodHead(c, s.lh) && GoodHead(c, Head(s.disk[c.start])) && 0 <= s.disk[c.start][0] <= LOGSIZE
    && s.durable <= |s.history|
    && (forall i :: 0 <= i < |s.history| ==> Home(c, s.history[i].block))
    && (forall b :: b in s.cache ==> 0 <= b < c.nblocks)
  }

  /** Entry i of lh has been copied from its log block to its home. */
  ghost predicate Installed(c: Config, s: State, t: nat)
    requires Shape(c, s)
  {
    forall i :: 0 <= i < t && i < |s.lh| ==> s.disk[s.lh[i]] == s.disk[c.start + i + 1]
  }

  /** No operation is in progress; readers may be. */
  ghost predicate Idle(s: State) {
    s.ops == [] && s.dirty == {} && forall b :: b in s.held ==> !s.held[b].ByOp?
  }

  ghost predicate PhaseInv(c: Config, s: State)
    requires Shape(c, s)
  {
    var hd := Head(s.disk[c.start]);
    match s.phase
    case Boot => Idle(s) && s.lh == [] && s.durable == |s.history|
    case Recovering(t) =>
      Idle(s) && t <= |s.lh| && s.lh == hd && Installed(c, s, t) && s.durable == |s.history|
    case Running => hd == []
    case Copying(t) =>
      && Idle(s) && t <= |s.lh| && hd == []
      && (forall i :: 0 <= i < t ==> s.lh[i] in s.cache && s.disk[c.start + i + 1] == s.cache[s.lh[i]])
    case Installing(t) =>
      Idle(s) && t <= |s.lh| && s.lh == hd && Installed(c, s, t) && s.durable == |s.history|
    case Cleared => Idle(s) && s.lh == [] && hd == [] && s.durable == |s.history|
  }

  /** A buffer that is neither pinned nor being modified equals its disk block. */
  ghost predicate CacheInv(s: State) {
    && (forall b :: b in s.cache && !Pinned(s, b) && b !in s.dirty ==> 0 <= b < |s.disk| && s.cache[b] == s.disk[b])
    && (forall b :: Pinned(s, b) ==> b in s.cache)
    && (forall b :: b in s.dirty ==> b in s.held && s.held[b].ByOp?)
    && (forall b :: b in s.held ==> b in s.cache)
    && (forall b :: s.claim[b] > 0 ==> b in s.cache)
    && |s.cache| <= NBUF
  }

  /** Every modification since the last commit is in a pinned or held buffer. */
  ghost predicate HistoryInv(s: State) {
    forall i :: s.durable <= i < |s.history| ==> s.history[i].block in s.lh || s.history[i].block in s.dirty
  }

  /** A disk whose header a crash cannot have spoiled. */
  ghost predicate Readable(c: Config, d: seq<Block>) { ValidConfig(c) && |d| == c.nblocks && GoodHead(c, Head(d[c.start])) }

  ghost predicate RecoversAt(c: Config, d: seq<Block>, e: seq<Block>, b: int)
    requires Readable(c, d) && |e| == |d|
  { Home(c, b) ==> Recover(c, d)[b] == e[b] }

  /** Recovering disk d yields the home blocks of e. */
  ghost predicate Recovers(c: Config, d: seq<Block>, e: seq<Block>)
    requires Readable(c, d) && |e| == |d|
  { forall b :: RecoversAt(c, d, e, b) }

  ghost predicate AlikeAt(c: Config, d: seq<Block>, e: seq<Block>, b: int)
    requires Readable(c, d) && Readable(c, e)
  { Home(c, b) ==> Recover(c, d)[b] == Recover(c, e)[b] }

  /** Recovering disks d and e yields the same home blocks. */
  ghost predicate Alike(c: Config, d: seq<Block>, e: seq<Block>)
    requires Readable(c, d) && Readable(c, e)
  { forall b :: AlikeAt(c, d, e, b) }

  lemma RecoversToo(c: Config, d: seq<Block>, e: seq<Block>, blocks: seq<Block>)
    requires Readable(c, d) && Readable(c, e) && |blocks| == |d| && (d == e || Alike(c, d, e)) && Recovers(c, e, blocks)
    ensures Recovers(c, d, blocks)
  {
    forall b ensures RecoversAt(c, d, blocks, b) { assert RecoversAt(c, e, blocks, b) && (d == e || AlikeAt(c, d, e, b)); }
  }

  ghost predicate DataInv(c: Config, init: seq<Block>, s: State)
    requires Shape(c, s) && |init| == c.nblocks && s.durable <= |s.history|
  {
    && Recovers(c, s.disk, Replay(init, s.history, s.durable))
    && (Up(s) ==> Shows(c, s, Replay(init, s.history, |s.history|)))
  }

  /** Recovery is over. */
  ghost predicate Up(s: State) { !s.phase.Boot? && !s.phase.Recovering? }

  /** What bread returns of the home blocks is e. */
  ghost predicate Shows(c: Config, s: State, e: seq<Block>)
    requires |s.disk| == |e| == c.nblocks
  { forall b :: 0 <= b < c.nblocks && Home(c, b) ==> View(s, b) == e[b] }

  ghost function Unused(ops: seq<Op>): int {
    if ops == [] then 0 else Unused(ops[..|ops| - 1]) + MAXOPBLOCKS - ops[|ops| - 1].added
  }

  ghost predicate OpsOk(ops: seq<Op>, base: nat, nextOp: nat) {
    && base <= nextOp
    && (forall i :: 0 <= i < |ops| ==> ops[i].added <= MAXOPBLOCKS && base <= ops[i].id < nextOp)
    && (forall i, j :: 0 <= i < j < |ops| ==> ops[i].id != ops[j].id)
  }

  /** Buffers that operations hold are held by operations in progress. */
  ghost predicate HeldOk(held: map<int, Who>, ops: seq<Op>) {
    forall b :: b in held && held[b].ByOp? ==> InProgress(ops, held[b].id)
  }

  /** Durable writes belong to operations before `base`, all others to later ones. */
  ghost predicate Tagged(h: seq<Write>, durable: nat, base: nat, nextOp: nat) {
    && durable <= |h|
    && (forall i :: 0 <= i < durable ==> h[i].op < base)
    && (forall i :: durable <= i < |h| ==> base <= h[i].op < nextOp)
  }

  ghost predicate OpsInv(s: State) {
    && OpsOk(s.ops, s.base, s.nextOp) && HeldOk(s.held, s.ops)
    && Tagged(s.history, s.durable, s.base, s.nextOp)
    && |s.lh| + Unused(s.ops) <= LOGSIZE
  }

  ghost predicate Inv(c: Config, init: seq<Block>, s: State) {
    && Shape(c, s) && |init| == c.nblocks
    && PhaseInv(c, s) && CacheInv(s) && HistoryInv(s) && OpsInv(s) && DataInv(c, init, s)
  }

  lemma SubsetSize(a: set<int>, b: set<int>)
    requires a <= b
    ensures |a| <= |b| && (|a| == |b| ==> a == b)
  {
    assert b == a + (b - a);
    assert |b| == |a| + |b - a|;
  }

  // ---------- reservation arithmetic ----------

  lemma {:induction false} UnusedBound(ops: seq<Op>)
    requires forall i :: 0 <= i < |ops| ==> ops[i].added <= MAXOPBLOCKS
    ensures 0 <= Unused(ops) <= |ops| * MAXOPBLOCKS
  {
    if ops != [] { UnusedBound(ops[..|ops| - 1]); }
  }

  lemma {:induction false} UnusedSplit(a: seq<Op>, b: seq<Op>)
    ensures Unused(a + b) == Unused(a) + Unused(b)
  {
    if b == [] { assert a + b == a; }
    else {
      UnusedSplit(a, b[..|b| - 1]);
      assert (a + b)[..|a + b| - 1] == a + b[..|b| - 1];
    }
  }

  lemma UnusedAt(ops: seq<Op>, i: nat)
    requires i < |ops|
    ensures Unused(ops) == Unused(ops[..i]) + MAXOPBLOCKS - ops[i].added + Unused(ops[i + 1..])
    ensures Unused(ops[..i] + ops[i + 1..]) == Unused(ops) - (MAXOPBLOCKS - ops[i].added)
    ensures Unused(ops[i := ops[i].(added := ops[i].added + 1)]) == Unused(ops) - 1
  {
    var o := ops[i].(added := ops[i].added + 1);
    assert ops == ops[..i] + [ops[i]] + ops[i + 1..];
    assert ops[i := o] == ops[..i] + [o] + ops[i + 1..];
    UnusedSplit(ops[..i] + [ops[i]], ops[i + 1..]);
    UnusedSplit(ops[..i], [ops[i]]);
    UnusedSplit(ops[..i] + [o], ops[i + 1..]);
    UnusedSplit(ops[..i], [o]);
    UnusedSplit(ops[..i], ops[i + 1..]);
  }

  lemma OpsLogWrite(c: Config, s: State, i: nat, b: nat, t: State)
    requires OpsInv(s) && NextLogWrite(c, s, i, b, t)
    ensures OpsInv(t)
  {
    UnusedAt(s.ops, i);
    forall id | InProgress(s.ops, id) ensures InProgress(t.ops, id) {
      var k :| 0 <= k < |s.ops| && s.ops[k].id == id;
      assert t.ops[k].id == id;
    }
  }

  lemma OpsBegin(c: Config, s: State, t: State)
    requires OpsInv(s) && NextBegin(c, s, t)
    ensures OpsInv(t)
  {
    UnusedBound(s.ops);
    assert t.ops[..|s.ops|] == s.ops;
    forall id | InProgress(s.ops, id) ensures InProgress(t.ops, id) {
      var k :| 0 <= k < |s.ops| && s.ops[k].id == id;
      assert t.ops[k].id == id;
    }
  }

  lemma OpsRemoved(ops: seq<Op>, i: nat, base: nat, nextOp: nat, held: map<int, Who>)
    requires OpsOk(ops, base, nextOp) && HeldOk(held, ops) && i < |ops|
    requires forall b :: b in held ==> held[b] != ByOp(ops[i].id)
    ensures OpsOk(ops[..i] + ops[i + 1..], base, nextOp) && HeldOk(held, ops[..i] + ops[i + 1..])
  {
    var rest := ops[..i] + ops[i + 1..];
    forall k | 0 <= k < |rest| ensures rest[k] == ops[if k < i then k else k + 1] {}
    forall id | InProgress(ops, id) && id != ops[i].id ensures InProgress(rest, id) {
      var k :| 0 <= k < |ops| && ops[k].id == id;
      assert rest[if k > i then k - 1 else k].id == id;
    }
  }

  lemma OpsEnd(c: Config, s: State, i: nat, t: State)
    requires OpsInv(s) && NextEnd(c, s, i, t)
    ensures OpsInv(t)
  {
    UnusedAt(s.ops, i);
    OpsRemoved(s.ops, i, s.base, s.nextOp, s.held);
  }

  // ---------- recovery, block by block ----------

  /** Recovery gives a listed block its log copy and leaves every other home block alone. */
  lemma RecoverAt(c: Config, d: seq<Block>, b: nat)
    requires ValidConfig(c) && |d| == c.nblocks && GoodHead(c, Head(d[c.start])) && Home(c, b)
    ensures b !in Head(d[c.start]) ==> Recover(c, d)[b] == d[b]
    ensures forall i :: 0 <= i < |Head(d[c.start])| && Head(d[c.start])[i] == b ==> Recover(c, d)[b] == d[c.start + i + 1]
  {
    InstallFromAt(c, d, Head(d[c.start]), 0, b);
  }

  lemma RecoverEmpty(c: Config, d: seq<Block>)
    requires ValidConfig(c) && |d| == c.nblocks && Head(d[c.start]) == []
    ensures Readable(c, d) && Recovers(c, d, d)
  {
    forall b ensures RecoversAt(c, d, d, b) { if Home(c, b) { RecoverAt(c, d, b); } }
  }

  /** Overwriting a listed block at its home does not change what recovery yields:
      this is why recovery may be interrupted and run again. */
  lemma RecoverIgnoresListedHome(c: Config, d: seq<Block>, i: nat, data: Block)
    requires ValidConfig(c) && |d| == c.nblocks && GoodHead(c, Head(d[c.start]))
    requires i < |Head(d[c.start])|
    ensures var d' := d[Head(d[c.start])[i] := data];
            Head(d'[c.start]) == Head(d[c.start]) && Alike(c, d', d)
  {
    var lh := Head(d[c.start]);
    var d' := d[lh[i] := data];
    forall b ensures AlikeAt(c, d', d, b) {
      if Home(c, b) {
        RecoverAt(c, d, b);
        RecoverAt(c, d', b);
        if b in lh {
          var k :| 0 <= k < |lh| && lh[k] == b;
          assert d'[c.start + k + 1] == d[c.start + k + 1];
        }
      }
    }
  }

  /** Once every listed block is installed, recovery has nothing left to do. */
  lemma RecoverInstalled(c: Config, d: seq<Block>)
    requires ValidConfig(c) && |d| == c.nblocks && GoodHead(c, Head(d[c.start]))
    requires var lh := Head(d[c.start]); forall i :: 0 <= i < |lh| ==> d[lh[i]] == d[c.start + i + 1]
    ensures Recovers(c, d, d)
  {
    var lh := Head(d[c.start]);
    forall b ensures RecoversAt(c, d, d, b) {
      if Home(c, b) { RecoverAt(c, d, b); }
      if b in lh { var k :| 0 <= k < |lh| && lh[k] == b; assert d[lh[k]] == d[c.start + k + 1]; }
    }
  }

  // ---------- preservation, action by action ----------

  lemma InvBegin(c: Config, init: seq<Block>, s: State, t: State)
    requires Inv(c, init, s) && NextBegin(c, s, t)
    ensures Inv(c, init, t)
  { OpsBegin(c, s, t); }

  ghost predicate SameViewAt(c: Config, s: State, t: State, b: int)
    requires |s.disk| == |t.disk| == c.nblocks
  { Home(c, b) ==> View(t, b) == View(s, b) }

  /** bread returns the same of every home block. */
  ghost predicate SameViews(c: Config, s: State, t: State)
    requires |s.disk| == |t.disk| == c.nblocks
  { forall b :: SameViewAt(c, s, t, b) }

  lemma SameMemory(c: Config, s: State, t: State)
    requires |s.disk| == c.nblocks && t.disk == s.disk && t.cache == s.cache
    ensures SameViews(c, s, t)
  {
    forall b ensures SameViewAt(c, s, t, b) {}
  }

  /** Writing one block, if that is not a home block or is seen as it is written. */
  lemma OneWritten(c: Config, s: State, t: State, x: nat, data: Block)
    requires |s.disk| == c.nblocks && x < |s.disk| && t.disk == s.disk[x := data] && t.cache == s.cache[x := data]
    requires Home(c, x) ==> View(s, x) == data
    ensures SameViews(c, s, t)
  {
    forall b ensures SameViewAt(c, s, t, b) {}
  }

  lemma ShowsToo(c: Config, s: State, t: State, e: seq<Block>)
    requires |s.disk| == |t.disk| == |e| == c.nblocks && Shows(c, s, e) && SameViews(c, s, t)
    ensures Shows(c, t, e)
  {
    forall b | 0 <= b < c.nblocks && Home(c, b) ensures View(t, b) == e[b] { assert SameViewAt(c, s, t, b); }
  }

  /** The data on disk and in memory stay good while the home blocks do not change. */
  lemma DataKept(c: Config, init: seq<Block>, s: State, t: State)
    requires Shape(c, s) && Shape(c, t) && |init| == c.nblocks && DataInv(c, init, s)
    requires t.history == s.history && t.durable == s.durable && (t.disk == s.disk || Alike(c, t.disk, s.disk))
    requires Up(t) ==> Up(s) && SameViews(c, s, t)
    ensures DataInv(c, init, t)
  {
    if Up(t) { ShowsToo(c, s, t, Replay(init, s.history, |s.history|)); }
    RecoversToo(c, t.disk, s.disk, Replay(init, s.history, s.durable));
  }

  /** A step that only takes a buffer: nothing that anyone can read changes. */
  lemma QuietParts(c: Config, init: seq<Block>, s: State, t: State)
    requires Shape(c, s) && |init| == c.nblocks && PhaseInv(c, s) && HistoryInv(s) && DataInv(c, init, s)
    requires t.disk == s.disk && t.lh == s.lh && t.phase == s.phase && t.history == s.history && t.durable == s.durable
    requires t.dirty == s.dirty && (Idle(s) ==> Idle(t))
    requires forall b :: b in s.cache ==> b in t.cache && t.cache[b] == s.cache[b]
    requires forall b :: b in t.cache && b !in s.cache ==> 0 <= b < |s.disk| && t.cache[b] == s.disk[b]
    ensures Shape(c, t) && PhaseInv(c, t) && HistoryInv(t) && DataInv(c, init, t)
  {}

  lemma GetCache(c: Config, s: State, b: nat, t: State)
    requires CacheInv(s) && NextGet(c, s, b, t)
    ensures CacheInv(t)
  {
    forall x ensures Pinned(t, x) <==> Pinned(s, x) {}
  }

  lemma InvGet(c: Config, init: seq<Block>, s: State, b: nat, t: State)
    requires Inv(c, init, s) && NextGet(c, s, b, t)
    ensures Inv(c, init, t)
  {
    QuietParts(c, init, s, t);
    GetCache(c, s, b, t);
  }

  lemma LockParts(c: Config, s: State, b: nat, who: Who, t: State)
    requires CacheInv(s) && OpsInv(s) && NextLock(c, s, b, who, t)
    ensures CacheInv(t) && OpsInv(t) && (Idle(s) ==> Idle(t))
  {
    forall x ensures Pinned(t, x) <==> Pinned(s, x) {}
  }

  lemma InvLock(c: Config, init: seq<Block>, s: State, b: nat, who: Who, t: State)
    requires Inv(c, init, s) && NextLock(c, s, b, who, t)
    ensures Inv(c, init, t)
  {
    LockParts(c, s, b, who, t);
    QuietParts(c, init, s, t);
  }

  lemma ModifyOps(c: Config, s: State, i: nat, b: nat, data: Block, t: State)
    requires OpsInv(s) && NextModify(c, s, i, b, data, t)
    ensures OpsInv(t)
  {}

  lemma ModifyData(c: Config, init: seq<Block>, s: State, i: nat, b: nat, data: Block, t: State)
    requires Shape(c, s) && |init| == c.nblocks && DataInv(c, init, s) && NextModify(c, s, i, b, data, t)
    ensures Shape(c, t) && DataInv(c, init, t)
  {
    ReplayPrefix(init, s.history, t.history, s.durable);
    ReplayPrefix(init, s.history, t.history, |s.history|);
  }

  lemma InvModify(c: Config, init: seq<Block>, s: State, i: nat, b: nat, data: Block, t: State)
    requires Inv(c, init, s) && NextModify(c, s, i, b, data, t)
    ensures Inv(c, init, t)
  {
    ModifyOps(c, s, i, b, data, t);
    ModifyData(c, init, s, i, b, data, t);
  }

  lemma LogWriteCache(c: Config, s: State, i: nat, b: nat, t: State)
    requires CacheInv(s) && HistoryInv(s) && NextLogWrite(c, s, i, b, t)
    ensures CacheInv(t) && HistoryInv(t)
  {
    assert b in s.lh || t.lh == s.lh + [b];
    forall x ensures Pinned(t, x) <==> Pinned(s, x) || x == b {}
  }

  lemma LogWriteShape(c: Config, s: State, i: nat, b: nat, t: State)
    requires Shape(c, s) && PhaseInv(c, s) && NextLogWrite(c, s, i, b, t)
    ensures Shape(c, t) && PhaseInv(c, t)
  {
    assert b in s.lh || t.lh == s.lh + [b];
    forall x, y | 0 <= x < y < |t.lh| ensures DifferAt(t.lh, x, y) { assert y < |s.lh| ==> DifferAt(s.lh, x, y); }
  }

  lemma InvLogWrite(c: Config, init: seq<Block>, s: State, i: nat, b: nat, t: State)
    requires Inv(c, init, s) && NextLogWrite(c, s, i, b, t)
    ensures Inv(c, init, t)
  {
    OpsLogWrite(c, s, i, b, t);
    LogWriteCache(c, s, i, b, t);
    LogWriteShape(c, s, i, b, t);
    SameMemory(c, s, t);
    DataKept(c, init, s, t);
  }

  lemma InvUnlock(c: Config, init: seq<Block>, s: State, b: nat, t: State)
    requires Inv(c, init, s) && NextUnlock(c, s, b, t)
    ensures Inv(c, init, t)
  {
    forall x ensures Pinned(t, x) <==> Pinned(s, x) {}
    QuietParts(c, init, s, t);
  }

  lemma InvDrop(c: Config, init: seq<Block>, s: State, b: nat, t: State)
    requires Inv(c, init, s) && NextDrop(c, s, b, t)
    ensures Inv(c, init, t)
  {
    forall x ensures Pinned(t, x) <==> Pinned(s, x) {}
    QuietParts(c, init, s, t);
  }

  lemma EvictParts(c: Config, s: State, b: nat, t: State)
    requires Shape(c, s) && PhaseInv(c, s) && CacheInv(s) && NextEvict(c, s, b, t)
    ensures Shape(c, t) && PhaseInv(c, t) && CacheInv(t) && SameViews(c, s, t)
  {
    assert forall x :: Pinned(t, x) == Pinned(s, x);
    assert s.phase.Copying? ==> forall i :: 0 <= i < |s.lh| ==> Pinned(s, s.lh[i]);
    forall x ensures SameViewAt(c, s, t, x) {}
  }

  lemma InvEvict(c: Config, init: seq<Block>, s: State, b: nat, t: State)
    requires Inv(c, init, s) && NextEvict(c, s, b, t)
    ensures Inv(c, init, t)
  {
    EvictParts(c, s, b, t);
    DataKept(c, init, s, t);
  }

  lemma EndIdle(c: Config, s: State, i: nat, t: State)
    requires OpsInv(t) && CacheInv(s) && NextEnd(c, s, i, t) && |t.ops| == 0
    ensures Idle(t)
  {
    assert forall b :: b in t.held ==> !t.held[b].ByOp?;
    assert forall b :: b in t.dirty ==> false;
  }

  lemma EndParts(c: Config, s: State, i: nat, t: State)
    requires Shape(c, s) && PhaseInv(c, s) && HistoryInv(s) && CacheInv(s) && NextEnd(c, s, i, t) && (|t.ops| == 0 ==> Idle(t))
    ensures Shape(c, t) && PhaseInv(c, t) && HistoryInv(t) && CacheInv(t)
  {
    assert t.phase.Cleared? ==> s.lh == [] && s.dirty == {};
    assert s.durable == |s.history| || s.history[s.durable].block in s.lh || s.history[s.durable].block in s.dirty;
    forall x ensures Pinned(t, x) <==> Pinned(s, x) {}
  }

  lemma InvEnd(c: Config, init: seq<Block>, s: State, i: nat, t: State)
    requires Inv(c, init, s) && NextEnd(c, s, i, t)
    ensures Inv(c, init, t)
  {
    OpsEnd(c, s, i, t);
    if |t.ops| == 0 { EndIdle(c, s, i, t); }
    EndParts(c, s, i, t);
    SameMemory(c, s, t);
    DataKept(c, init, s, t);
  }

  /** Operations and the pending writes do not change while commit and recovery write blocks. */
  lemma OpsSame(s: State, t: State)
    requires OpsInv(s) && HistoryInv(s) && t.ops == s.ops && t.held == s.held && t.base == s.base && t.nextOp == s.nextOp
    requires t.history == s.history && t.durable == s.durable && t.dirty == s.dirty
    requires t.lh == s.lh || (t.lh == [] && t.durable == |t.history|)
    ensures OpsInv(t) && HistoryInv(t)
  {}

  lemma CopyToLogParts(c: Config, s: State, t: State)
    requires Shape(c, s) && PhaseInv(c, s) && NextCopyToLog(c, s, t) && Pinned(s, s.lh[s.phase.tail])
    requires CacheInv(s)
    ensures Shape(c, t) && PhaseInv(c, t)
  {
    var k := s.phase.tail;
    assert t.disk[c.start] == s.disk[c.start] && s.lh[k] in s.cache;
    forall i | 0 <= i < k + 1 ensures s.lh[i] in t.cache && t.disk[c.start + i + 1] == t.cache[s.lh[i]] {
      assert s.lh[i] != c.start + k + 1;
      if i < k { assert s.disk[c.start + i + 1] == s.cache[s.lh[i]]; }
    }
  }

  lemma BwriteCache(c: Config, s: State, t: State, b: nat, data: Block)
    requires b < |s.disk| && CacheInv(s) && Idle(s) && Idle(t)
    requires t.disk == s.disk[b := data] && t.cache == s.cache[b := data] && t.held == s.held && t.claim == s.claim && b in s.cache
    requires forall x :: Pinned(t, x) ==> Pinned(s, x)
    requires forall x :: Pinned(s, x) && x != b ==> Pinned(t, x)
    ensures CacheInv(t)
  {}

  lemma CopyToLogData(c: Config, init: seq<Block>, s: State, t: State)
    requires Shape(c, s) && Shape(c, t) && |init| == c.nblocks && DataInv(c, init, s) && NextCopyToLog(c, s, t)
    requires Head(s.disk[c.start]) == [] == Head(t.disk[c.start])
    ensures DataInv(c, init, t)
  {
    RecoverEmpty(c, s.disk);
    RecoverEmpty(c, t.disk);
    forall b ensures AlikeAt(c, t.disk, s.disk, b) { assert RecoversAt(c, s.disk, s.disk, b) && RecoversAt(c, t.disk, t.disk, b); }
    OneWritten(c, s, t, c.start + s.phase.tail + 1, View(s, s.lh[s.phase.tail]));
    DataKept(c, init, s, t);
  }

  lemma InvCopyToLog(c: Config, init: seq<Block>, s: State, t: State)
    requires Inv(c, init, s) && NextCopyToLog(c, s, t)
    ensures Inv(c, init, t)
  {
    CopyToLogParts(c, s, t);
    BwriteCache(c, s, t, c.start + s.phase.tail + 1, View(s, s.lh[s.phase.tail]));
    CopyToLogData(c, init, s, t);
    OpsSame(s, t);
  }

  lemma CommitHeadParts(c: Config, s: State, t: State)
    requires Shape(c, s) && PhaseInv(c, s) && NextCommitHead(c, s, t)
    ensures Shape(c, t) && PhaseInv(c, t) && Head(t.disk[c.start]) == s.lh
  {
    HeadOfPutHead(View(s, c.start), s.lh);
  }

  /** The commit point: from here on recovery yields all of the group's writes. */
  lemma CommitHeadAt(c: Config, s: State, d: seq<Block>, b: nat)
    requires Shape(c, s) && CacheInv(s) && PhaseInv(c, s) && s.phase == Copying(|s.lh|)
    requires |d| == |s.disk| && Head(d[c.start]) == s.lh && Home(c, b) && forall i :: 0 <= i < |d| && i != c.start ==> d[i] == s.disk[i]
    ensures Recover(c, d)[b] == View(s, b)
  {
    RecoverAt(c, d, b);
    if b in s.lh {
      var k :| 0 <= k < |s.lh| && s.lh[k] == b;
      assert d[c.start + k + 1] == s.disk[c.start + k + 1] == s.cache[s.lh[k]];
    } else {
      assert !Pinned(s, b);
    }
  }

  lemma CommitHeadHome(c: Config, s: State, d: seq<Block>, e: seq<Block>)
    requires Shape(c, s) && CacheInv(s) && PhaseInv(c, s) && s.phase == Copying(|s.lh|)
    requires |d| == |s.disk| && Head(d[c.start]) == s.lh && forall i :: 0 <= i < |d| && i != c.start ==> d[i] == s.disk[i]
    requires |e| == |d| && Shows(c, s, e)
    ensures Recovers(c, d, e)
  {
    forall b ensures RecoversAt(c, d, e, b) { if Home(c, b) { CommitHeadAt(c, s, d, b); } }
  }

  lemma CommitHeadData(c: Config, s: State, t: State, e: seq<Block>)
    requires Shape(c, s) && CacheInv(s) && PhaseInv(c, s) && NextCommitHead(c, s, t) && Head(t.disk[c.start]) == s.lh
    requires |e| == c.nblocks && Shows(c, s, e)
    ensures Recovers(c, t.disk, e)
  {
    CommitHeadHome(c, s, t.disk, e);
  }

  lemma CommitHeadShows(c: Config, s: State, t: State, e: seq<Block>)
    requires ValidConfig(c) && |s.disk| == |e| == c.nblocks && NextCommitHead(c, s, t) && Shows(c, s, e)
    ensures Shows(c, t, e)
  {
    OneWritten(c, s, t, c.start, PutHead(View(s, c.start), s.lh));
    ShowsToo(c, s, t, e);
  }

  lemma CommitHeadCache(c: Config, s: State, t: State)
    requires CacheInv(s) && Idle(s) && NextCommitHead(c, s, t)
    ensures CacheInv(t)
  {
    forall x ensures Pinned(t, x) <==> Pinned(s, x) {}
    BwriteCache(c, s, t, c.start, PutHead(View(s, c.start), s.lh));
  }

  lemma CommitHeadOps(c: Config, s: State, t: State)
    requires OpsInv(s) && Idle(s) && NextCommitHead(c, s, t)
    ensures OpsInv(t) && HistoryInv(t)
  {}

  lemma InvCommitHead(c: Config, init: seq<Block>, s: State, t: State)
    requires Inv(c, init, s) && NextCommitHead(c, s, t)
    ensures Inv(c, init, t)
  {
    CommitHeadParts(c, s, t);
    CommitHeadCache(c, s, t);
    CommitHeadOps(c, s, t);
    CommitHeadData(c, s, t, Replay(init, s.history, |s.history|));
    CommitHeadShows(c, s, t, Replay(init, s.history, |s.history|));
  }

  /** Copying entry k home: the header and the log blocks stay as they are. */
  lemma InstallEntry(c: Config, s: State, t: State, k: nat)
    requires Shape(c, s) && s.lh == Head(s.disk[c.start]) && Installed(c, s, k) && k < |s.lh|
    requires |t.disk| == |s.disk| && t.disk == s.disk[s.lh[k] := s.disk[c.start + k + 1]]
    requires t.lh == s.lh && t.history == s.history && t.durable == s.durable
    requires t.cache == s.cache[s.lh[k] := s.disk[c.start + k + 1]]
    ensures Shape(c, t) && t.disk[c.start] == s.disk[c.start] && Installed(c, t, k + 1)
    ensures Alike(c, t.disk, s.disk)
  {
    RecoverIgnoresListedHome(c, s.disk, k, s.disk[c.start + k + 1]);
    forall i | 0 <= i < k ensures s.lh[i] != s.lh[k] { assert DifferAt(s.lh, i, k); }
  }

  lemma LogBlockClean(c: Config, s: State, k: nat)
    requires Shape(c, s) && CacheInv(s) && Idle(s) && k < |s.lh|
    ensures View(s, c.start + k + 1) == s.disk[c.start + k + 1]
  {}

  lemma UnpinsOne(s: State, t: State, k: nat, x: int)
    requires s.phase == Installing(k) && t.phase == Installing(k + 1) && t.lh == s.lh && k < |s.lh|
    ensures Pinned(s, x) <==> Pinned(t, x) || x == s.lh[k]
  {}

  lemma InstallCache(c: Config, s: State, t: State)
    requires CacheInv(s) && Idle(s) && NextInstall(c, s, t)
    ensures CacheInv(t)
  {
    var k := s.phase.tail;
    forall x ensures Pinned(s, x) <==> Pinned(t, x) || x == s.lh[k] { UnpinsOne(s, t, k, x); }
    BwriteCache(c, s, t, s.lh[k], View(s, c.start + k + 1));
  }

  /** Entry k has been copied home, and the phase is p. */
  ghost function CopiedHome(c: Config, s: State, k: nat, p: Phase): State
    requires k < |s.lh| && 0 <= s.lh[k] < |s.disk| && c.start + k + 1 < |s.disk|
  {
    var data := s.disk[c.start + k + 1];
    s.(disk := s.disk[s.lh[k] := data], cache := s.cache[s.lh[k] := data], phase := p)
  }

  /** The log blocks are not in use by anybody else, so the cache has them as the disk has. */
  lemma InstallIs(c: Config, s: State, t: State, k: nat)
    requires Shape(c, s) && CacheInv(s) && Idle(s) && k < |s.lh| && c.start + k + 1 < |s.disk| && 0 <= s.lh[k] < |s.disk|
    requires t == Bwrite(s, s.lh[k], View(s, c.start + k + 1)).(phase := t.phase)
    ensures t == CopiedHome(c, s, k, t.phase)
  {
    LogBlockClean(c, s, k);
  }

  lemma InstallParts(c: Config, s: State, k: nat)
    requires Shape(c, s) && PhaseInv(c, s) && k < |s.lh| && (s.phase == Installing(k) || s.phase == Recovering(k))
    ensures var t := CopiedHome(c, s, k, if s.phase.Installing? then Installing(k + 1) else Recovering(k + 1));
            Shape(c, t) && PhaseInv(c, t) && Alike(c, t.disk, s.disk)
  {
    InstallEntry(c, s, CopiedHome(c, s, k, if s.phase.Installing? then Installing(k + 1) else Recovering(k + 1)), k);
  }

  lemma InvInstall(c: Config, init: seq<Block>, s: State, t: State)
    requires Inv(c, init, s) && NextInstall(c, s, t)
    ensures Inv(c, init, t)
  {
    var k := s.phase.tail;
    InstallIs(c, s, t, k);
    InstallParts(c, s, k);
    InstallCache(c, s, t);
    InstallData(c, init, s, t, k);
    OpsSame(s, t);
  }

  /** The log block of entry k is what the program sees of the home block. */
  lemma InstallShown(c: Config, s: State, k: nat, e: seq<Block>)
    requires Shape(c, s) && s.lh == Head(s.disk[c.start]) && k < |s.lh| && |e| == |s.disk| && Recovers(c, s.disk, e) && Shows(c, s, e)
    ensures View(s, s.lh[k]) == s.disk[c.start + k + 1]
  {
    RecoverAt(c, s.disk, s.lh[k]);
    assert RecoversAt(c, s.disk, e, s.lh[k]);
  }

  lemma InstallData(c: Config, init: seq<Block>, s: State, t: State, k: nat)
    requires Shape(c, s) && s.lh == Head(s.disk[c.start]) && k < |s.lh| && |init| == c.nblocks && DataInv(c, init, s)
    requires Up(s) && s.durable == |s.history| && t == CopiedHome(c, s, k, t.phase) && Shape(c, t) && Alike(c, t.disk, s.disk)
    ensures DataInv(c, init, t)
  {
    InstallShown(c, s, k, Replay(init, s.history, |s.history|));
    OneWritten(c, s, t, s.lh[k], s.disk[c.start + k + 1]);
    DataKept(c, init, s, t);
  }

  /** Erasing the header after everything is installed: recovery still yields the
      same home blocks. */
  lemma ClearData(c: Config, s: State, t: State)
    requires Shape(c, s) && s.lh == Head(s.disk[c.start]) && Installed(c, s, |s.lh|)
    requires t.disk == s.disk[c.start := PutHead(View(s, c.start), [])]
    ensures |t.disk| == |s.disk| && Head(t.disk[c.start]) == [] && t.disk[c.start][0] == 0
    ensures Readable(c, t.disk) && Alike(c, t.disk, s.disk) && Recovers(c, s.disk, t.disk)
  {
    HeadOfPutHead(View(s, c.start), []);
    RecoverInstalled(c, s.disk);
    RecoverEmpty(c, t.disk);
    forall b ensures AlikeAt(c, t.disk, s.disk, b) && RecoversAt(c, s.disk, t.disk, b) {
      assert RecoversAt(c, s.disk, s.disk, b) && RecoversAt(c, t.disk, t.disk, b);
    }
  }

  lemma ClearParts(c: Config, s: State, t: State)
    requires Shape(c, s) && PhaseInv(c, s) && (NextClearHead(c, s, t) || NextRecoverClear(c, s, t))
    ensures Shape(c, t) && PhaseInv(c, t) && Alike(c, t.disk, s.disk) && Recovers(c, s.disk, t.disk)
  {
    ClearData(c, s, t);
  }

  lemma ClearCache(c: Config, s: State, t: State)
    requires CacheInv(s) && Idle(s) && (NextClearHead(c, s, t) || NextRecoverClear(c, s, t))
    ensures CacheInv(t)
  {
    forall x ensures !Pinned(s, x) && !Pinned(t, x) {}
    BwriteCache(c, s, t, c.start, PutHead(View(s, c.start), []));
  }

  lemma InvClearHead(c: Config, init: seq<Block>, s: State, t: State)
    requires Inv(c, init, s) && NextClearHead(c, s, t)
    ensures Inv(c, init, t)
  {
    ClearParts(c, s, t);
    ClearCache(c, s, t);
    OneWritten(c, s, t, c.start, PutHead(View(s, c.start), []));
    DataKept(c, init, s, t);
    OpsSame(s, t);
  }

  lemma CrashHistory(c: Config, s: State, t: State)
    requires OpsInv(s) && NextCrash(c, s, t)
    ensures OpsInv(t) && HistoryInv(t) && forall i :: 0 <= i < |t.history| ==> t.history[i] == s.history[i]
  {}

  lemma InvCrash(c: Config, init: seq<Block>, s: State, t: State)
    requires Inv(c, init, s) && NextCrash(c, s, t)
    ensures Inv(c, init, t)
  {
    CrashHistory(c, s, t);
    ReplayPrefix(init, s.history, t.history, s.durable);
  }

  lemma InvReadHead(c: Config, init: seq<Block>, s: State, t: State)
    requires Inv(c, init, s) && NextReadHead(c, s, t)
    ensures Inv(c, init, t)
  {}

  lemma InvFinish(c: Config, init: seq<Block>, s: State, t: State)
    requires Inv(c, init, s) && NextFinish(c, s, t)
    ensures Inv(c, init, t)
  {
    SameMemory(c, s, t);
    DataKept(c, init, s, t);
  }

  lemma InvRecoverInstall(c: Config, init: seq<Block>, s: State, t: State)
    requires Inv(c, init, s) && NextRecoverInstall(c, s, t)
    ensures Inv(c, init, t)
  {
    var k := s.phase.tail;
    InstallIs(c, s, t, k);
    InstallParts(c, s, k);
    DataKept(c, init, s, t);
    BwriteCache(c, s, t, s.lh[k], s.disk[c.start + k + 1]);
    OpsSame(s, t);
  }

  lemma RecoveredView(c: Config, init: seq<Block>, s: State, t: State)
    requires Shape(c, s) && |init| == c.nblocks && DataInv(c, init, s) && Shape(c, t) && CacheInv(t)
    requires t.history == s.history && t.durable == s.durable == |s.history| && t.lh == [] && Idle(t) && t.phase.Running?
    requires Alike(c, t.disk, s.disk) && Recovers(c, s.disk, t.disk)
    ensures DataInv(c, init, t)
  {
    var e := Replay(init, s.history, |s.history|);
    RecoversToo(c, t.disk, s.disk, e);
    forall b | 0 <= b < c.nblocks && Home(c, b) ensures View(t, b) == e[b] {
      assert RecoversAt(c, s.disk, t.disk, b) && RecoversAt(c, s.disk, e, b);
    }
  }

  lemma InvRecoverClear(c: Config, init: seq<Block>, s: State, t: State)
    requires Inv(c, init, s) && NextRecoverClear(c, s, t)
    ensures Inv(c, init, t)
  {
    ClearParts(c, s, t);
    ClearCache(c, s, t);
    RecoveredView(c, init, s, t);
    OpsSame(s, t);
  }
}
