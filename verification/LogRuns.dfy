/** What holds in every run of the log, crashes and interrupted recoveries included. */
module LogRuns {
  import opened LogMachine
  import opened LogProof

  /** A machine about to boot from a freshly made file system. */
  ghost predicate Init(c: Config, init: seq<Block>, s: State) {
    && ValidConfig(c) && |init| == c.nblocks && init[c.start][0] == 0
    && s == State(init, map[], map[], multiset{}, {}, [], [], Boot, 0, 0, [], 0)
  }

  ghost predicate IsRun(c: Config, init: seq<Block>, run: seq<State>, acts: seq<Action>) {
    && |run| == |acts| + 1
    && Init(c, init, run[0])
    && forall i :: 0 <= i < |acts| ==> Follows(c, run, acts, i)
  }

  /** Step i of the run is one of the machine's. */
  ghost predicate Follows(c: Config, run: seq<State>, acts: seq<Action>, i: int)
    requires 0 <= i < |acts| && |run| == |acts| + 1
  { Next(c, run[i], acts[i], run[i + 1]) }

  lemma InvInit(c: Config, init: seq<Block>, s: State)
    requires Init(c, init, s)
    ensures Inv(c, init, s)
  {
    RecoverEmpty(c, init);
  }

  /** The steps of operations and readers. */
  lemma InvNextUser(c: Config, init: seq<Block>, s: State, a: Action, t: State)
    requires Inv(c, init, s) && Next(c, s, a, t)
    requires a.Begin? || a.Get? || a.Lock? || a.Modify? || a.LogWrite? || a.Unlock? || a.Drop? || a.Evict? || a.End?
    ensures Inv(c, init, t)
  {
    match a
    case Begin => InvBegin(c, init, s, t);
    case Get(b) => InvGet(c, init, s, b, t);
    case Lock(b, who) => InvLock(c, init, s, b, who, t);
    case Modify(i, b, data) => InvModify(c, init, s, i, b, data, t);
    case LogWrite(i, b) => InvLogWrite(c, init, s, i, b, t);
    case Unlock(b) => InvUnlock(c, init, s, b, t);
    case Drop(b) => InvDrop(c, init, s, b, t);
    case Evict(b) => InvEvict(c, init, s, b, t);
    case End(i) => InvEnd(c, init, s, i, t);
  }

  /** The steps of commit and recovery, and the crash. */
  lemma InvNextLog(c: Config, init: seq<Block>, s: State, a: Action, t: State)
    requires Inv(c, init, s) && Next(c, s, a, t)
    requires !(a.Begin? || a.Get? || a.Lock? || a.Modify? || a.LogWrite? || a.Unlock? || a.Drop? || a.Evict? || a.End?)
    ensures Inv(c, init, t)
  {
    match a
    case CopyToLog => InvCopyToLog(c, init, s, t);
    case CommitHead => InvCommitHead(c, init, s, t);
    case Install => InvInstall(c, init, s, t);
    case ClearHead => InvClearHead(c, init, s, t);
    case Finish => InvFinish(c, init, s, t);
    case Crash => InvCrash(c, init, s, t);
    case ReadHead => InvReadHead(c, init, s, t);
    case RecoverInstall => InvRecoverInstall(c, init, s, t);
    case RecoverClear => InvRecoverClear(c, init, s, t);
  }

  lemma InvNext(c: Config, init: seq<Block>, s: State, a: Action, t: State)
    requires Inv(c, init, s) && Next(c, s, a, t)
    ensures Inv(c, init, t)
  {
    if a.Begin? || a.Get? || a.Lock? || a.Modify? || a.LogWrite? || a.Unlock? || a.Drop? || a.Evict? || a.End? { InvNextUser(c, init, s, a, t); }
    else { InvNextLog(c, init, s, a, t); }
  }

  lemma {:induction false} RunInv(c: Config, init: seq<Block>, run: seq<State>, acts: seq<Action>, i: nat)
    requires IsRun(c, init, run, acts) && i < |run|
    ensures Inv(c, init, run[i])
  {
    if i == 0 {
      InvInit(c, init, run[0]);
    } else {
      var j := i - 1;
      RunInv(c, init, run, acts, j);
      assert Follows(c, run, acts, j);
      InvNext(c, init, run[j], acts[j], run[j + 1]);
    }
  }

  lemma RunShape(c: Config, init: seq<Block>, run: seq<State>, acts: seq<Action>, i: nat)
    requires IsRun(c, init, run, acts) && i < |run|
    ensures |run[i].disk| == c.nblocks && GoodHead(c, run[i].lh) && run[i].durable <= |run[i].history|
    ensures run[i].phase.Boot? ==> View(run[i], c.start) == run[i].disk[c.start] && 0 <= run[i].disk[c.start][0] <= LOGSIZE
    ensures run[i].phase.Cleared? ==> run[i].durable == |run[i].history| && run[i].lh == []
  {
    RunInv(c, init, run, acts, i);
  }

  lemma RunCache(c: Config, init: seq<Block>, run: seq<State>, acts: seq<Action>, i: nat)
    requires IsRun(c, init, run, acts) && i < |run|
    ensures CacheInv(run[i])
  {
    RunInv(c, init, run, acts, i);
  }

  /** Crash atomicity.  Whatever point a run has reached, recovering its disk
      yields exactly the writes of the committed groups, and no operation has
      writes on both sides of that line. */
  lemma CrashAtomicity(c: Config, init: seq<Block>, run: seq<State>, acts: seq<Action>, i: nat)
    requires IsRun(c, init, run, acts) && i < |run|
    ensures var s := run[i];
            && |s.disk| == c.nblocks && GoodHead(c, Head(s.disk[c.start])) && s.durable <= |s.history|
            && SameHome(c, Recover(c, s.disk), Replay(init, s.history, s.durable))
            && forall j, k :: 0 <= j < s.durable <= k < |s.history| ==> s.history[j].op != s.history[k].op
  {
    RunInv(c, init, run, acts, i);
    var d, e := run[i].disk, Replay(init, run[i].history, run[i].durable);
    forall b | 0 <= b < c.nblocks && Home(c, b) ensures Recover(c, d)[b] == e[b] { assert RecoversAt(c, d, e, b); }
  }

  /** When recovery has run to its end, however often it was interrupted before,
      the home blocks are exactly those of the committed groups; and when the
      commit of end_op has run to its end, they are those of everything written. */
  lemma RecoveredAndCommitted(c: Config, init: seq<Block>, run: seq<State>, acts: seq<Action>, i: nat)
    requires IsRun(c, init, run, acts) && i < |acts|
    requires acts[i].RecoverClear? || acts[i].Finish?
    ensures var s := run[i + 1];
            && |s.disk| == c.nblocks && s.durable == |s.history| && s.phase.Running?
            && SameHome(c, s.disk, Replay(init, s.history, |s.history|))
            && forall b :: 0 <= b < c.nblocks && Home(c, b) ==> View(s, b) == s.disk[b]
  {
    assert Follows(c, run, acts, i);
    RunIdle(c, init, run, acts, i);
    RunInv(c, init, run, acts, i + 1);
    CleanDisk(c, init, run[i + 1]);
  }

  lemma RunIdle(c: Config, init: seq<Block>, run: seq<State>, acts: seq<Action>, i: nat)
    requires IsRun(c, init, run, acts) && i < |run| && (run[i].phase.Recovering? || run[i].phase.Cleared?)
    ensures run[i].durable == |run[i].history| && Idle(run[i])
    ensures run[i].phase.Cleared? ==> run[i].lh == []
  {
    RunInv(c, init, run, acts, i);
  }

  lemma CleanDisk(c: Config, init: seq<Block>, s: State)
    requires Inv(c, init, s) && s.phase.Running? && s.lh == [] && s.dirty == {} && s.durable == |s.history|
    ensures SameHome(c, s.disk, Replay(init, s.history, |s.history|))
    ensures forall b :: 0 <= b < c.nblocks && Home(c, b) ==> View(s, b) == s.disk[b]
  {
    RecoverEmpty(c, s.disk);
    var e := Replay(init, s.history, |s.history|);
    forall b | 0 <= b < c.nblocks && Home(c, b) ensures s.disk[b] == e[b] {
      assert RecoversAt(c, s.disk, s.disk, b) && RecoversAt(c, s.disk, e, b);
    }
  }

  lemma RunClean(c: Config, init: seq<Block>, run: seq<State>, acts: seq<Action>)
    requires IsRun(c, init, run, acts)
    requires var s := run[|run| - 1]; s.phase.Running? && s.lh == [] && s.dirty == {} && s.durable == |s.history|
    ensures var s := run[|run| - 1]; |s.disk| == |init| == c.nblocks && SameHome(c, s.disk, Replay(init, s.history, |s.history|))
  {
    RunInv(c, init, run, acts, |run| - 1);
    CleanDisk(c, init, run[|run| - 1]);
  }

  /** What was durable once stays durable, through any later crash. */
  lemma {:induction false} DurableForever(c: Config, init: seq<Block>, run: seq<State>, acts: seq<Action>, i: nat, j: nat)
    requires IsRun(c, init, run, acts) && i <= j < |run|
    ensures run[i].durable <= |run[i].history| && run[j].durable <= |run[j].history|
    ensures run[i].history[..run[i].durable] <= run[j].history[..run[j].durable]
    decreases j - i
  {
    RunShape(c, init, run, acts, i);
    if i < j {
      DurableNext(c, init, run, acts, i);
      DurableForever(c, init, run, acts, i + 1, j);
    }
  }

  lemma DurableNext(c: Config, init: seq<Block>, run: seq<State>, acts: seq<Action>, i: nat)
    requires IsRun(c, init, run, acts) && i < |acts|
    ensures run[i].durable <= |run[i].history| && run[i + 1].durable <= |run[i + 1].history|
    ensures run[i].history[..run[i].durable] <= run[i + 1].history[..run[i + 1].durable]
  {
    RunShape(c, init, run, acts, i);
    RunShape(c, init, run, acts, i + 1);
    assert Follows(c, run, acts, i);
    DurableStep(c, run[i], acts[i], run[i + 1]);
  }

  lemma DurableStep(c: Config, s: State, a: Action, t: State)
    requires Next(c, s, a, t) && s.durable <= |s.history| && t.durable <= |t.history|
    ensures s.history[..s.durable] <= t.history[..t.durable]
  {
    DurableKept(c, s, a, t);
  }

  lemma DurableKept(c: Config, s: State, a: Action, t: State)
    requires Next(c, s, a, t) && s.durable <= |s.history| && t.durable <= |t.history|
    ensures s.durable <= t.durable && forall i :: 0 <= i < s.durable ==> t.history[i] == s.history[i]
  {}

  /** Reservation: the entries in the log and those still reserved by operations in
      progress fit, logged blocks are distinct home blocks, and a commit only runs
      with no operation in progress. */
  lemma Reservation(c: Config, init: seq<Block>, run: seq<State>, acts: seq<Action>, i: nat)
    requires IsRun(c, init, run, acts) && i < |run|
    ensures var s := run[i];
            && |s.lh| + Unused(s.ops) <= LOGSIZE && 0 <= Unused(s.ops)
            && GoodHead(c, s.lh)
            && (!s.phase.Running? ==> s.ops == [] && s.dirty == {})
  {
    RunInv(c, init, run, acts, i);
    UnusedBound(run[i].ops);
  }

  lemma Extend(c: Config, init: seq<Block>, run: seq<State>, acts: seq<Action>, a: Action, t: State)
    requires IsRun(c, init, run, acts) && Next(c, run[|run| - 1], a, t)
    ensures IsRun(c, init, run + [t], acts + [a])
  {
    var run', acts' := run + [t], acts + [a];
    forall i | 0 <= i < |acts'| ensures Follows(c, run', acts', i) { assert i < |acts| ==> Follows(c, run, acts, i); }
  }
}
