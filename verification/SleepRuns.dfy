/** No wakeup is lost, and no process runs twice, in any interleaving. */
module SleepRuns {
  import opened SleepMachine
  import opened SleepProof

  lemma CpuStep(c: Config, s: State, i: nat, a: Action, t: State, j: nat)
    requires Base(c, s) && i < c.ncpu && Next(c, s, i, a, t) && j < c.ncpu
    ensures Sizes(c, t) && CpuOk(c, t, j)
  {
    assert CpuOk(c, s, j);
    AnyCpu(c, s, i, a, t, j, if s.cpus[j].mode.SchedFree? then 0 else s.cpus[j].mode.p);
  }

  lemma KeepsStep(c: Config, s: State, i: nat, a: Action, t: State, j: nat, p: nat)
    requires Base(c, s) && i < c.ncpu && Next(c, s, i, a, t) && j < c.ncpu && p < c.nproc
    ensures Sizes(c, t) && LockOk(c, t, j, p) && ProcOk(t.procs[p]) && OnCpu(c, t, p)
    ensures (Cur(t, i, p) && Cur(t, j, p) ==> i == j) && (j != i ==> t.cpus[j] == s.cpus[j])
  {
    AnyKeeps(c, s, i, a, t, j, p);
  }

  lemma UniqueStep(c: Config, s: State, i: nat, a: Action, t: State, j: nat, k: nat, p: nat)
    requires Base(c, s) && i < c.ncpu && Next(c, s, i, a, t) && Sizes(c, t)
    requires j < c.ncpu && k < c.ncpu && p < c.nproc && Cur(t, j, p) && Cur(t, k, p)
    ensures j == k
  {
    KeepsStep(c, s, i, a, t, j, p);
    KeepsStep(c, s, i, a, t, k, p);
    if j != i && k != i {
      assert Cur(s, j, p) && Cur(s, k, p);
    }
  }

  lemma BaseStep(c: Config, s: State, i: nat, a: Action, t: State)
    requires Base(c, s) && i < c.ncpu && Next(c, s, i, a, t)
    ensures Base(c, t)
  {
    CpuStep(c, s, i, a, t, i);
    forall j | 0 <= j < c.ncpu ensures CpuOk(c, t, j) { CpuStep(c, s, i, a, t, j); }
    forall p | 0 <= p < c.nproc ensures ProcOk(t.procs[p]) && OnCpu(c, t, p) { KeepsStep(c, s, i, a, t, i, p); }
    forall j, p | 0 <= j < c.ncpu && 0 <= p < c.nproc ensures LockOk(c, t, j, p) { KeepsStep(c, s, i, a, t, j, p); }
    forall j, k, p: nat | 0 <= j < c.ncpu && 0 <= k < c.ncpu && Cur(t, j, p) && Cur(t, k, p) ensures j == k {
      assert CpuOk(c, t, j);
      UniqueStep(c, s, i, a, t, j, k, p);
    }
  }

  lemma InvStep(c: Config, s: State, i: nat, a: Action, t: State)
    requires Inv(c, s) && i < c.ncpu && Next(c, s, i, a, t)
    ensures Inv(c, t)
  {
    BaseStep(c, s, i, a, t);
    SectsStep(c, s, i, a, t);
    SleepersStep(c, s, i, a, t);
  }

  lemma SectsStep(c: Config, s: State, i: nat, a: Action, t: State)
    requires Sizes(c, s) && Sizes(c, t) && Sects(c, s) && i < c.ncpu && Next(c, s, i, a, t)
    ensures Sects(c, t)
  {
    forall l | 0 <= l < c.nlock ensures HolderOk(c, t, l) { AnySects(c, s, i, a, t, i, l); }
    forall j | 0 <= j < c.ncpu ensures SectOk(c, t, j) {
      AnySects(c, s, i, a, t, j, 0);
    }
  }

  lemma SleepersStep(c: Config, s: State, i: nat, a: Action, t: State)
    requires Base(c, s) && Sects(c, s) && Sleepers(c, s) && Sizes(c, t) && i < c.ncpu && Next(c, s, i, a, t)
    ensures Sleepers(c, t)
  {
    forall p, ch | 0 <= p < c.nproc
      ensures TestOk(c, t, p) && (Waiting(t.procs[p], ch) ==> 0 <= ch < |c.lockOf|)
      ensures 0 <= ch < |c.lockOf| ==> WaitOk(c, t, p, ch)
    {
      assert LockOk(c, s, i, p);
      var j := if s.procs[p].lock == NONE then i else s.procs[p].lock;
      AnyWaits(c, s, i, a, t, j, p, ch);
    }
    forall p | 0 <= p < c.nproc ensures TestOk(c, t, p) {
      assert LockOk(c, s, i, p);
      AnyWaits(c, s, i, a, t, if s.procs[p].lock == NONE then i else s.procs[p].lock, p, NONE);
    }
  }

  lemma InitInv(c: Config, s: State)
    requires Init(c, s)
    ensures Inv(c, s)
  {
    assert forall i, p: nat :: 0 <= i < c.ncpu ==> !Cur(s, i, p);
  }

  lemma {:induction false} RunInv(c: Config, run: seq<State>, who: seq<nat>, acts: seq<Action>, n: nat)
    requires IsRun(c, run, who, acts) && n < |run|
    ensures Inv(c, run[n])
  {
    if n == 0 {
      InitInv(c, run[0]);
    } else {
      var m := n - 1;
      RunInv(c, run, who, acts, m);
      assert Follows(c, run, who, acts, m);
      InvStep(c, run[m], who[m], acts[m], run[m + 1]);
    }
  }

  /** No lost wakeup: when the lock of a channel is free, whoever still sleeps on
      the channel tested the condition after its last change.  So at the end of a
      critical section that changes the condition and calls wakeup, in either
      order, every process whose test came before is no longer SLEEPING. */
  lemma NoLostWakeup(c: Config, run: seq<State>, who: seq<nat>, acts: seq<Action>, n: nat, p: nat, ch: nat)
    requires IsRun(c, run, who, acts) && n < |run| && p < |run[n].procs|
    requires run[n].procs[p].state == SLEEPING && run[n].procs[p].chan == ch
    ensures ch < |c.lockOf| == |run[n].ver| && c.lockOf[ch] < |run[n].locks|
    ensures run[n].locks[c.lockOf[ch]] == NONE ==>
              run[n].procs[p].seenCh == ch && run[n].procs[p].seenVer == run[n].ver[ch]
  {
    RunInv(c, run, who, acts, n);
    var s := run[n];
    assert ProcOk(s.procs[p]);
    assert Waiting(s.procs[p], ch);
    assert WaitOk(c, s, p, ch);
  }

  /** No process is current on two CPUs, and no condition lock is held by two. */
  lemma OneCpu(c: Config, run: seq<State>, who: seq<nat>, acts: seq<Action>, n: nat, i: nat, j: nat)
    requires IsRun(c, run, who, acts) && n < |run| && i < |run[n].cpus| && j < |run[n].cpus|
    ensures run[n].cpus[i].proc == run[n].cpus[j].proc != NONE ==> i == j
    ensures run[n].cpus[i].sect.In? && run[n].cpus[j].sect.In? && run[n].cpus[i].sect.lk == run[n].cpus[j].sect.lk ==> i == j
  {
    RunInv(c, run, who, acts, n);
    var s := run[n];
    assert CpuOk(c, s, i) && CpuOk(c, s, j) && SectOk(c, s, i) && SectOk(c, s, j);
    if s.cpus[i].proc == s.cpus[j].proc != NONE {
      var p := s.cpus[i].proc;
      assert Cur(s, i, p) && Cur(s, j, p);
    }
  }

  /** sched's panics are unreachable: the caller holds p->lock and no other lock,
      and the state is no longer RUNNING. */
  lemma SchedNeverPanics(c: Config, run: seq<State>, who: seq<nat>, acts: seq<Action>, n: nat, q: nat)
    requires IsRun(c, run, who, acts) && n < |acts| && acts[n].Sched? && q < |run[n].procs|
    ensures var s, i := run[n], who[n];
            && i < |s.cpus| && s.cpus[i].mode.Thread? && s.cpus[i].mode.p < |s.procs|
            && s.procs[s.cpus[i].mode.p].lock == i && s.procs[s.cpus[i].mode.p].state != RUNNING
            && s.cpus[i].sect.Out? && (s.procs[q].lock == i ==> q == s.cpus[i].mode.p)
  {
    RunInv(c, run, who, acts, n);
    var s, i := run[n], who[n];
    assert NextYield(c, s, i, acts[n], run[n + 1]) by { assert Follows(c, run, who, acts, n); }
    assert CpuOk(c, s, i) && LockOk(c, s, i, s.cpus[i].mode.p) && LockOk(c, s, i, q);
  }

  /** The hand-off of p->lock: a CPU that executes a thread inside sleep, yield,
      exit or forkret holds that process's lock, whoever acquired it. */
  lemma HandOff(c: Config, run: seq<State>, who: seq<nat>, acts: seq<Action>, n: nat, i: nat)
    requires IsRun(c, run, who, acts) && n < |run| && i < |run[n].cpus| && run[n].cpus[i].mode.Thread?
    ensures var p := run[n].cpus[i].mode.p;
            && p < |run[n].procs| && run[n].cpus[i].proc == p
            && (run[n].procs[p].pc != Free ==> run[n].procs[p].lock == i)
            && (run[n].procs[p].pc == Free ==> run[n].procs[p].state == RUNNING && run[n].procs[p].lock != i)
  {
    RunInv(c, run, who, acts, n);
    assert CpuOk(c, run[n], i);
    assert LockOk(c, run[n], i, run[n].cpus[i].mode.p);
  }

  /** A slot is freed, by wait or after a failed fork, only when no CPU is on its kernel stack. */
  lemma ReapedIsOff(c: Config, run: seq<State>, who: seq<nat>, acts: seq<Action>, n: nat, j: nat)
    requires IsRun(c, run, who, acts) && n < |acts| && (acts[n].Reap? || acts[n].Discard?) && j < |run[n].cpus|
    ensures who[n] < |run[n].cpus| && run[n].cpus[who[n]].other >= 0
    ensures !Cur(run[n], j, run[n].cpus[who[n]].other)
  {
    RunInv(c, run, who, acts, n);
    var s, i := run[n], who[n];
    assert Follows(c, run, who, acts, n);
    var p := s.cpus[i].other;
    assert CpuOk(c, s, i) && CpuOk(c, s, j) && LockOk(c, s, i, p) && LockOk(c, s, j, p);
  }
}
