/** The history of a run in terms of the calls that were made: what begin_op, the stores into
    buffers, end_op, commits and crashes amount to, without a look at the machine's states. */
module LogLedger {
  import opened LogMachine
  import opened LogProof
  import opened LogRuns

  /** writes are the stores that no crash has undone, durable counts those that no crash can undo,
      open has the numbers of the operations in progress, begun how many there were. */
  datatype Ledger = Ledger(writes: seq<Write>, durable: nat, open: seq<nat>, begun: nat)

  function Without(s: seq<nat>, i: nat): seq<nat> { if i < |s| then s[..i] + s[i + 1..] else s }

  /** One call: a store belongs to its operation, with the block and the data that were given. */
  function Entered(l: Ledger, a: Action): (r: Ledger)
    requires l.durable <= |l.writes|
    ensures r.durable <= |r.writes|
  {
    match a
    case Begin => l.(open := l.open + [l.begun], begun := l.begun + 1)
    case End(i) => l.(open := Without(l.open, i))
    case Modify(i, b, data) => l.(writes := l.writes + [Write(if i < |l.open| then l.open[i] else 0, b, data)])
    case CommitHead => l.(durable := |l.writes|)
    case Crash => l.(writes := l.writes[..l.durable], open := [])
    case _ => l
  }

  /** The first n calls. */
  function Book(acts: seq<Action>, n: nat): (r: Ledger)
    requires n <= |acts|
    ensures r.durable <= |r.writes|
  { if n == 0 then Ledger([], 0, [], 0) else Entered(Book(acts, n - 1), acts[n - 1]) }

  ghost predicate SameIds(ops: seq<Op>, ids: seq<nat>) { |ops| == |ids| && forall i :: 0 <= i < |ops| ==> ops[i].id == ids[i] }

  ghost predicate Agrees(s: State, l: Ledger) {
    s.history == l.writes && s.durable == l.durable && SameIds(s.ops, l.open) && s.nextOp == l.begun
  }

  lemma StepAgrees(c: Config, s: State, a: Action, t: State, l: Ledger)
    requires Next(c, s, a, t) && Agrees(s, l) && l.durable <= |l.writes|
    ensures Agrees(t, Entered(l, a))
  {}

  lemma StepEntered(c: Config, init: seq<Block>, run: seq<State>, acts: seq<Action>, n: nat, l: Ledger)
    requires IsRun(c, init, run, acts) && n < |acts| && Agrees(run[n], l) && l.durable <= |l.writes|
    ensures Agrees(run[n + 1], Entered(l, acts[n]))
  {
    assert Follows(c, run, acts, n);
    StepAgrees(c, run[n], acts[n], run[n + 1], l);
  }

  /** In every run the history is what the calls entered. */
  lemma {:induction false} HistoryIsBook(c: Config, init: seq<Block>, run: seq<State>, acts: seq<Action>, n: nat)
    requires IsRun(c, init, run, acts) && n < |run|
    ensures Agrees(run[n], Book(acts, n))
  {
    if n > 0 {
      HistoryIsBook(c, init, run, acts, n - 1);
      StepEntered(c, init, run, acts, n - 1, Book(acts, n - 1));
    }
  }

  // ---------- the last store wins ----------

  predicate Stores(a: Action, b: nat) { a.Modify? && a.b == b }

  /** No call from m up to n stores into block b. */
  ghost predicate NoneLater(acts: seq<Action>, b: nat, m: nat, n: nat) {
    forall k :: m <= k < n && k < |acts| ==> !Stores(acts[k], b)
  }

  ghost predicate CommitIn(acts: seq<Action>, m: nat, n: nat) { exists k :: m <= k < n && k < |acts| && acts[k].CommitHead? }

  /** Every crash from m up to n has a commit before it. */
  ghost predicate Survives(acts: seq<Action>, m: nat, n: nat) {
    forall k :: m <= k < n && k < |acts| && acts[k].Crash? ==> CommitIn(acts, m, k)
  }

  /** Entry p is this store, and the last into its block among the first n. */
  ghost predicate LastOf(h: seq<Write>, n: nat, p: nat, b: nat, data: Block) {
    p < n <= |h| && h[p].block == b && h[p].data == data && forall q :: p < q < n ==> h[q].block != b
  }

  ghost predicate LastAt(h: seq<Write>, p: nat, b: nat, data: Block) { LastOf(h, |h|, p, b, data) }

  lemma {:induction false} ReplayLast(init: seq<Block>, h: seq<Write>, n: nat, p: nat, b: nat, data: Block)
    requires LastOf(h, n, p, b, data) && b < |init|
    ensures Replay(init, h, n)[b] == data
  {
    if p < n - 1 { ReplayLast(init, h, n - 1, p, b, data); }
  }

  lemma EntryStays(l: Ledger, a: Action, p: nat, b: nat, data: Block, committed: bool)
    requires l.durable <= |l.writes| && LastAt(l.writes, p, b, data) && (committed ==> p < l.durable) && !Stores(a, b) && (a.Crash? ==> committed)
    ensures LastAt(Entered(l, a).writes, p, b, data) && (committed || a.CommitHead? ==> p < Entered(l, a).durable)
  {}

  /** A store that no crash undoes and no later one replaces stays the last one. */
  lemma {:induction false} StoreStays(acts: seq<Action>, m: nat, n: nat, i: nat, b: nat, data: Block)
    requires m < n <= |acts| && acts[m] == Modify(i, b, data) && NoneLater(acts, b, m + 1, n) && Survives(acts, m + 1, n)
    ensures var p := |Book(acts, m).writes|;
            LastAt(Book(acts, n).writes, p, b, data) && (CommitIn(acts, m + 1, n) ==> p < Book(acts, n).durable)
    decreases n
  {
    if n > m + 1 {
      var a, p, before := acts[n - 1], |Book(acts, m).writes|, CommitIn(acts, m + 1, n - 1);
      StoreStays(acts, m, n - 1, i, b, data);
      EntryStays(Book(acts, n - 1), a, p, b, data, before);
      if CommitIn(acts, m + 1, n) && !before {
        var k :| m + 1 <= k < n && acts[k].CommitHead?;
        assert k == n - 1;
      }
    }
  }

  /** After a commit or a recovery the disk has, for every home block, the data of the last store into it
      that no crash undid; so has whoever reads the block. */
  lemma LastStoreOnDisk(c: Config, init: seq<Block>, run: seq<State>, acts: seq<Action>, m: nat, n: nat, i: nat, b: nat, data: Block)
    requires IsRun(c, init, run, acts) && m < n < |acts| && acts[m] == Modify(i, b, data)
    requires NoneLater(acts, b, m + 1, n) && Survives(acts, m + 1, n) && (acts[n].Finish? || acts[n].RecoverClear?)
    ensures b < |run[n + 1].disk| && run[n + 1].disk[b] == data && View(run[n + 1], b) == data
  {
    assert Follows(c, run, acts, m);
    StoreStays(acts, m, n, i, b, data);
    HistoryIsBook(c, init, run, acts, n);
    assert Follows(c, run, acts, n);
    RecoveredAndCommitted(c, init, run, acts, n);
    var s := run[n + 1];
    ReplayLast(init, s.history, |s.history|, |Book(acts, m).writes|, b, data);
  }

  /** While the system is up, whoever reads a home block gets the data of the last such store. */
  lemma LastStoreSeen(c: Config, init: seq<Block>, run: seq<State>, acts: seq<Action>, m: nat, n: nat, i: nat, b: nat, data: Block)
    requires IsRun(c, init, run, acts) && m < n < |run| && acts[m] == Modify(i, b, data)
    requires NoneLater(acts, b, m + 1, n) && Survives(acts, m + 1, n) && Up(run[n])
    ensures b < |run[n].disk| && View(run[n], b) == data
  {
    assert Follows(c, run, acts, m);
    StoreStays(acts, m, n, i, b, data);
    HistoryIsBook(c, init, run, acts, n);
    RunInv(c, init, run, acts, n);
    ReplayLast(init, run[n].history, |run[n].history|, |Book(acts, m).writes|, b, data);
  }

  lemma {:induction false} DurableStays(acts: seq<Action>, k: nat, n: nat)
    requires k < n <= |acts| && acts[k].CommitHead? && !CommitIn(acts, k + 1, n)
    ensures var w := Book(acts, k).writes; Book(acts, n).durable == |w| && w <= Book(acts, n).writes
    decreases n
  {
    if n > k + 1 {
      DurableStays(acts, k, n - 1);
      assert !acts[n - 1].CommitHead?;
    }
  }

  /** From a commit to the next, wherever the machine stops: recovery gives every home block the data of the last
      store before the commit, and nothing of what was stored since. */
  lemma LastCommittedRecovered(c: Config, init: seq<Block>, run: seq<State>, acts: seq<Action>, m: nat, k: nat, n: nat, i: nat, b: nat, data: Block)
    requires IsRun(c, init, run, acts) && m < k < n < |run| && acts[m] == Modify(i, b, data) && acts[k].CommitHead?
    requires NoneLater(acts, b, m + 1, k) && Survives(acts, m + 1, k) && !CommitIn(acts, k + 1, n)
    ensures Readable(c, run[n].disk) && b < |run[n].disk| && Recover(c, run[n].disk)[b] == data
  {
    assert Follows(c, run, acts, m);
    StoreStays(acts, m, k, i, b, data);
    DurableStays(acts, k, n);
    HistoryIsBook(c, init, run, acts, n);
    CrashAtomicity(c, init, run, acts, n);
    ReplayLast(init, run[n].history, run[n].durable, |Book(acts, m).writes|, b, data);
  }
}
