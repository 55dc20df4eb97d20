/** The write-ahead log of kernel/log.c as a step machine.

    One state holds the disk, the volatile buffer cache of NBUF buffers, the
    in-memory log header and the file-system operations in progress.  Every step is
    one atomic action of some kernel thread: a buffer operation of an FS system call
    or of a reader outside any transaction, one single-block disk write of commit or
    of recovery, or a crash.  A crash may come between any two steps, also in the
    middle of recovery.

    `history` and `durable` are bookkeeping that no step reads: the block
    modifications made so far, in order, and how many of them were in the last
    group whose header reached the disk. */
module LogMachine {

  const WORDS := 256        // 32-bit words in a block of BSIZE bytes
  const MAXOPBLOCKS := 10
  const LOGSIZE := 30
  const NBUF := 30

  type Block = b: seq<int> | |b| == WORDS witness seq(WORDS, _ => 0)

  /** Log area: header block `start`, then `size - 1` data blocks. */
  datatype Config = Config(start: nat, size: nat, nblocks: nat)

  ghost predicate ValidConfig(c: Config) {
    1 <= c.size && c.start + c.size <= c.nblocks
  }

  /** A block outside the log area. */
  predicate Home(c: Config, b: int) {
    0 <= b < c.nblocks && !(c.start <= b < c.start + c.size)
  }

  // ---------- the header block ----------

  /** The block numbers a header block lists. */
  function Head(blk: Block): (lh: seq<int>) {
    if 0 <= blk[0] <= LOGSIZE then blk[1..1 + blk[0]] else []
  }

  /** The header block after the in-memory header is copied over it. */
  function PutHead(blk: Block, lh: seq<int>): (r: Block)
    requires |lh| <= LOGSIZE
  {
    [|lh|] + lh + blk[1 + |lh|..]
  }

  lemma HeadOfPutHead(blk: Block, lh: seq<int>)
    requires |lh| <= LOGSIZE
    ensures Head(PutHead(blk, lh)) == lh
  {
    var r := PutHead(blk, lh);
    assert r[0] == |lh|;
    assert r[1..1 + |lh|] == lh;
  }

  // ---------- states and actions ----------

  /** An FS system call between begin_op and end_op; `added` counts the log
      entries it has appended. */
  datatype Op = Op(id: nat, added: nat)

  datatype Write = Write(op: nat, block: nat, data: Block)

  datatype Phase =
    | Boot                    // before read_head
    | Recovering(tail: nat)   // recovery's install_trans loop
    | Running                 // log.committing == 0
    | Copying(tail: nat)      // write_log loop
    | Installing(tail: nat)   // install_trans loop, header on disk
    | Cleared                 // commit done, log.committing still 1

  /** Who has a buffer locked: an operation, a reader outside any operation, or the
      thread that commits or recovers. */
  datatype Who = ByOp(id: nat) | ByReader | ByLogger

  datatype State = State(
    disk: seq<Block>,
    cache: map<int, Block>,   // the blocks that have a buffer
    held: map<int, Who>,      // locked buffers
    claim: multiset<int>,     // counted users without the lock: on the way to it, or past releasesleep
    dirty: set<int>,          // modified since the holder's last log_write
    lh: seq<int>,             // log.lh.block[0 .. log.lh.n]
    ops: seq<Op>,             // log.outstanding of them
    phase: Phase,
    nextOp: nat,
    base: nat,                // operations from here on are not yet durable
    history: seq<Write>,
    durable: nat)

  datatype Action =
    | Begin
    | Get(b: nat)
    | Lock(b: nat, who: Who)
    | Modify(i: nat, b: nat, data: Block)
    | LogWrite(i: nat, b: nat)
    | Unlock(b: nat)
    | Drop(b: nat)
    | Evict(b: nat)
    | End(i: nat)
    | CopyToLog
    | CommitHead
    | Install
    | ClearHead
    | Finish
    | Crash
    | ReadHead
    | RecoverInstall
    | RecoverClear

  /** What bread returns: the cached copy when there is one. */
  function View(s: State, b: nat): Block
    requires b < |s.disk|
  {
    if b in s.cache then s.cache[b] else s.disk[b]
  }

  /** bwrite: the buffer and the disk block both get the data. */
  function Bwrite(s: State, b: nat, data: Block): State
    requires b < |s.disk|
  {
    s.(disk := s.disk[b := data], cache := s.cache[b := data])
  }

  /** log_write has pinned the block's buffer and install_trans has not yet
      unpinned it. */
  ghost predicate Pinned(s: State, b: int) {
    match s.phase
    case Running => b in s.lh
    case Copying(_) => b in s.lh
    case Installing(t) => exists i :: t <= i < |s.lh| && s.lh[i] == b
    case _ => false
  }

  /** The test that makes log_write panic with "too big a transaction". */
  predicate TooBig(c: Config, s: State) {
    |s.lh| >= LOGSIZE || |s.lh| >= c.size - 1
  }

  ghost predicate Holds(s: State, i: nat, b: nat) {
    i < |s.ops| && b in s.held && s.held[b] == ByOp(s.ops[i].id)
  }

  /** The committing or recovering thread has b locked. */
  ghost predicate Mine(s: State, b: int) {
    b in s.held && s.held[b] == ByLogger
  }

  ghost predicate InProgress(ops: seq<Op>, id: nat) {
    exists i :: 0 <= i < |ops| && ops[i].id == id
  }

  // ---------- buffers in use ----------

  /** The block's buffer has a non-zero count. */
  ghost predicate Used(s: State, b: int) {
    Pinned(s, b) || b in s.held || s.claim[b] > 0
  }

  /** bget finds no buffer for b, and none that nobody uses: it panics. */
  ghost predicate BgetPanics(s: State, b: int) {
    b !in s.cache && |s.cache| == NBUF && forall x :: x in s.cache ==> Used(s, x)
  }

  // ---------- the steps ----------

  ghost predicate NextBegin(c: Config, s: State, t: State) {
    && s.phase.Running? && |s.lh| + (|s.ops| + 1) * MAXOPBLOCKS <= LOGSIZE
    && t == s.(ops := s.ops + [Op(s.nextOp, 0)], nextOp := s.nextOp + 1)
  }

  /** bget: a user more for the buffer of b, which is recycled or unused if b has none
      yet.  Evict is what happens to the block that a recycled buffer had. */
  ghost predicate NextGet(c: Config, s: State, b: nat, t: State) {
    && b < |s.disk| && (b in s.cache || |s.cache| < NBUF)
    && t == s.(cache := s.cache[b := View(s, b)], claim := s.claim + multiset{b})
  }

  /** acquiresleep. */
  ghost predicate NextLock(c: Config, s: State, b: nat, who: Who, t: State) {
    && s.claim[b] > 0 && b !in s.held && (who.ByOp? ==> InProgress(s.ops, who.id))
    && t == s.(claim := s.claim - multiset{b}, held := s.held[b := who])
  }

  ghost predicate NextModify(c: Config, s: State, i: nat, b: nat, data: Block, t: State) {
    && s.phase.Running? && Holds(s, i, b) && Home(c, b)
    && t == s.(cache := s.cache[b := data], dirty := s.dirty + {b},
               history := s.history + [Write(s.ops[i].id, b, data)])
  }

  ghost predicate NextLogWrite(c: Config, s: State, i: nat, b: nat, t: State) {
    && s.phase.Running? && Holds(s, i, b) && Home(c, b)
    && (b in s.lh || s.ops[i].added < MAXOPBLOCKS) && !TooBig(c, s)
    && t == if b in s.lh then s.(dirty := s.dirty - {b})  // absorbed
            else s.(dirty := s.dirty - {b}, lh := s.lh + [b],
                    ops := s.ops[i := s.ops[i].(added := s.ops[i].added + 1)])
  }

  /** The first half of brelse, releasesleep: the buffer is still counted. */
  ghost predicate NextUnlock(c: Config, s: State, b: nat, t: State) {
    b in s.held && b !in s.dirty && t == s.(held := s.held - {b}, claim := s.claim + multiset{b})
  }

  /** The second half, under bcache.lock: the count goes down. */
  ghost predicate NextDrop(c: Config, s: State, b: nat, t: State) {
    s.claim[b] > 0 && t == s.(claim := s.claim - multiset{b})
  }

  ghost predicate NextEvict(c: Config, s: State, b: nat, t: State) {
    b in s.cache && !Used(s, b) && t == s.(cache := s.cache - {b})
  }

  ghost predicate NextEnd(c: Config, s: State, i: nat, t: State) {
    && s.phase.Running? && i < |s.ops| && (forall b :: b in s.held ==> s.held[b] != ByOp(s.ops[i].id))
    && t == s.(ops := s.ops[..i] + s.ops[i + 1..],
               phase := if |s.ops| > 1 then Running else if s.lh == [] then Cleared else Copying(0))
  }

  /** The log block and the home block of the entry at `tail` are there and locked. */
  ghost predicate EntryAt(c: Config, s: State, tail: nat) {
    && tail < |s.lh| && c.start + tail + 1 < |s.disk| && 0 <= s.lh[tail] < |s.disk|
    && Mine(s, c.start + tail + 1) && Mine(s, s.lh[tail])
  }

  ghost predicate NextCopyToLog(c: Config, s: State, t: State) {
    && s.phase.Copying? && EntryAt(c, s, s.phase.tail)
    && t == Bwrite(s, c.start + s.phase.tail + 1, View(s, s.lh[s.phase.tail])).(phase := Copying(s.phase.tail + 1))
  }

  ghost predicate NextCommitHead(c: Config, s: State, t: State) {
    && s.phase.Copying? && s.phase.tail == |s.lh| <= LOGSIZE && c.start < |s.disk| && Mine(s, c.start)
    && t == Bwrite(s, c.start, PutHead(View(s, c.start), s.lh))
              .(phase := Installing(0), durable := |s.history|, base := s.nextOp)
  }

  ghost predicate NextInstall(c: Config, s: State, t: State) {
    && s.phase.Installing? && EntryAt(c, s, s.phase.tail)
    && t == Bwrite(s, s.lh[s.phase.tail], View(s, c.start + s.phase.tail + 1)).(phase := Installing(s.phase.tail + 1))
  }

  ghost predicate NextClearHead(c: Config, s: State, t: State) {
    && s.phase.Installing? && s.phase.tail == |s.lh| && c.start < |s.disk| && Mine(s, c.start)
    && t == Bwrite(s, c.start, PutHead(View(s, c.start), [])).(phase := Cleared, lh := [])
  }

  ghost predicate NextFinish(c: Config, s: State, t: State) {
    s.phase.Cleared? && t == s.(phase := Running)
  }

  /** Power fails: only the disk survives. */
  ghost predicate NextCrash(c: Config, s: State, t: State) {
    && s.durable <= |s.history|
    && t == s.(cache := map[], held := map[], claim := multiset{}, dirty := {}, lh := [], ops := [], phase := Boot,
               base := s.nextOp, history := s.history[..s.durable])
  }

  ghost predicate NextReadHead(c: Config, s: State, t: State) {
    && s.phase.Boot? && c.start < |s.disk| && Mine(s, c.start)
    && t == s.(lh := Head(View(s, c.start)), phase := Recovering(0))
  }

  ghost predicate NextRecoverInstall(c: Config, s: State, t: State) {
    && s.phase.Recovering? && EntryAt(c, s, s.phase.tail)
    && t == Bwrite(s, s.lh[s.phase.tail], View(s, c.start + s.phase.tail + 1)).(phase := Recovering(s.phase.tail + 1))
  }

  ghost predicate NextRecoverClear(c: Config, s: State, t: State) {
    && s.phase.Recovering? && s.phase.tail == |s.lh| && c.start < |s.disk| && Mine(s, c.start)
    && t == Bwrite(s, c.start, PutHead(View(s, c.start), [])).(phase := Running, lh := [])
  }

  ghost predicate Next(c: Config, s: State, a: Action, t: State) {
    match a
    case Begin => NextBegin(c, s, t)
    case Get(b) => NextGet(c, s, b, t)
    case Lock(b, who) => NextLock(c, s, b, who, t)
    case Modify(i, b, data) => NextModify(c, s, i, b, data, t)
    case LogWrite(i, b) => NextLogWrite(c, s, i, b, t)
    case Unlock(b) => NextUnlock(c, s, b, t)
    case Drop(b) => NextDrop(c, s, b, t)
    case Evict(b) => NextEvict(c, s, b, t)
    case End(i) => NextEnd(c, s, i, t)
    case CopyToLog => NextCopyToLog(c, s, t)
    case CommitHead => NextCommitHead(c, s, t)
    case Install => NextInstall(c, s, t)
    case ClearHead => NextClearHead(c, s, t)
    case Finish => NextFinish(c, s, t)
    case Crash => NextCrash(c, s, t)
    case ReadHead => NextReadHead(c, s, t)
    case RecoverInstall => NextRecoverInstall(c, s, t)
    case RecoverClear => NextRecoverClear(c, s, t)
  }

  // ---------- what the disk should hold ----------

  /** The blocks after the first n of a list of writes. */
  ghost function Replay(init: seq<Block>, h: seq<Write>, n: nat): (d: seq<Block>)
    requires n <= |h|
    ensures |d| == |init|
  {
    if n == 0 then init
    else
      var d, w := Replay(init, h, n - 1), h[n - 1];
      if w.block < |d| then d[w.block := w.data] else d
  }

  lemma {:induction false} ReplayPrefix(init: seq<Block>, h: seq<Write>, h': seq<Write>, n: nat)
    requires n <= |h| && n <= |h'| && forall i :: 0 <= i < n ==> h'[i] == h[i]
    ensures Replay(init, h', n) == Replay(init, h, n)
  {
    if n > 0 { ReplayPrefix(init, h, h', n - 1); }
  }

  ghost predicate SameHome(c: Config, d: seq<Block>, e: seq<Block>)
    requires |d| == |e| == c.nblocks
  {
    forall b :: 0 <= b < c.nblocks && Home(c, b) ==> d[b] == e[b]
  }

  /** install_trans from entry `tail` on, then the header cleared: the disk that
      an uninterrupted recovery leaves. */
  ghost function InstallFrom(c: Config, d: seq<Block>, lh: seq<int>, tail: nat): (r: seq<Block>)
    requires ValidConfig(c) && |d| == c.nblocks && GoodHead(c, lh)
    ensures |r| == |d|
    decreases |lh| - tail
  {
    if tail >= |lh| then d
    else InstallFrom(c, d[lh[tail] := d[c.start + tail + 1]], lh, tail + 1)
  }

  ghost predicate GoodHead(c: Config, lh: seq<int>) {
    && |lh| <= LOGSIZE && |lh| <= c.size - 1
    && (forall i :: 0 <= i < |lh| ==> Home(c, lh[i]))
    && (forall i, j :: 0 <= i < j < |lh| ==> DifferAt(lh, i, j))
  }

  ghost predicate DifferAt(lh: seq<int>, i: int, j: int)
    requires 0 <= i < j < |lh|
  { lh[i] != lh[j] }

  /** The disk after recover_from_log runs on d without interruption. */
  ghost function Recover(c: Config, d: seq<Block>): (r: seq<Block>)
    requires ValidConfig(c) && |d| == c.nblocks && GoodHead(c, Head(d[c.start]))
    ensures |r| == |d|
  {
    var r := InstallFrom(c, d, Head(d[c.start]), 0);
    r[c.start := PutHead(r[c.start], [])]
  }

  lemma {:induction false} InstallFromAt(c: Config, d: seq<Block>, lh: seq<int>, tail: nat, b: nat)
    requires ValidConfig(c) && |d| == c.nblocks && GoodHead(c, lh) && tail <= |lh|
    requires b < c.nblocks
    ensures (forall i :: tail <= i < |lh| ==> lh[i] != b) ==> InstallFrom(c, d, lh, tail)[b] == d[b]
    ensures Home(c, b) ==> forall i :: tail <= i < |lh| && lh[i] == b ==> InstallFrom(c, d, lh, tail)[b] == d[c.start + i + 1]
    decreases |lh| - tail
  {
    if tail < |lh| {
      InstallFromAt(c, d[lh[tail] := d[c.start + tail + 1]], lh, tail + 1, b);
      forall i | tail < i < |lh| ensures lh[i] != lh[tail] { assert DifferAt(lh, tail, i); }
    }
  }
}
