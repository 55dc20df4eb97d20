/** What happens to a process in a run, told by the steps that were taken: who changes its state,
    what ends its sleep, and what it had tested before it fell asleep. */
module SleepStates {
  import opened SleepMachine
  import opened SleepProof
  import opened SleepRuns

  // ---------- the states of a process ----------

  /** CPU i, in wakeup(ch), looks at p and finds it asleep on ch. */
  ghost predicate Wakes(s: State, i: nat, a: Action, p: nat)
    requires i < |s.cpus| && p < |s.procs|
  {
    && a.WakeCheck? && s.cpus[i].other == p && s.cpus[i].sect.In? && s.cpus[i].sect.scan.Scan?
    && s.procs[p].state == SLEEPING && s.procs[p].chan == s.cpus[i].sect.scan.ch
  }

  /** CPU i, which has p->lock, does a to p. */
  ghost predicate ToOther(s: State, i: nat, p: nat)
    requires i < |s.cpus|
  { s.cpus[i].other == p }

  /** CPU i does a in the thread of p. */
  ghost predicate InThread(s: State, i: nat, p: nat)
    requires i < |s.cpus|
  { s.cpus[i].mode == Thread(p) }

  /** The state diagram: the state of p after CPU i has done a. */
  ghost function NewState(s: State, i: nat, a: Action, p: nat): PState
    requires i < |s.cpus| && p < |s.procs|
  {
    match a
    case WakeCheck => if Wakes(s, i, a, p) then RUNNABLE else s.procs[p].state
    case Kill => if ToOther(s, i, p) then RUNNABLE else s.procs[p].state
    case Reap => if ToOther(s, i, p) then UNUSED else s.procs[p].state
    case Alloc => if ToOther(s, i, p) then USED else s.procs[p].state
    case Discard => if ToOther(s, i, p) then UNUSED else s.procs[p].state
    case Ready => if ToOther(s, i, p) then RUNNABLE else s.procs[p].state
    case SleepState => if InThread(s, i, p) then SLEEPING else s.procs[p].state
    case YieldState => if InThread(s, i, p) then RUNNABLE else s.procs[p].state
    case ExitZombie(_) => if InThread(s, i, p) then ZOMBIE else s.procs[p].state
    case SchedRun => if s.cpus[i].mode == SchedLocked(p) then RUNNING else s.procs[p].state
    case _ => s.procs[p].state
  }

  /** CPU i is inside wakeup(ch). */
  ghost predicate InWakeup(s: State, i: nat, ch: int)
    requires i < |s.cpus|
  { s.cpus[i].sect.In? && s.cpus[i].sect.scan.Scan? && s.cpus[i].sect.scan.ch == ch }

  /** In sleep, on the way to or after SLEEPING, on channel ch. */
  predicate InSleep(pc: Pc, ch: int) { pc == SleepLocked(ch) || pc == SleepReleased(ch) || pc == SleepChanSet(ch) || pc == SleepReady(ch) || pc == Slept(ch) }

  /** The condition of ch changes. */
  predicate Alters(a: Action, ch: int) { a == Bump(ch) || a == ExitZombie(ch) }

  // ---------- one step ----------

  /** What CPU i's doing a from s to t does to the state of p, to wakeups and sleeps on ch, and to what p has seen
      of ch; j is any CPU. */
  ghost predicate Traced(c: Config, s: State, i: nat, a: Action, t: State, j: nat, p: nat, ch: int)
    requires Sizes(c, s) && i < c.ncpu && p < c.nproc
  {
    && |t.cpus| == |s.cpus| && |t.procs| == |s.procs| && |t.ver| == |s.ver|
    && t.procs[p].state == NewState(s, i, a, p)
    && (j < |s.cpus| && InWakeup(t, j, ch) ==> InWakeup(s, j, ch) || (i == j && a == WakeStart(ch)))
    && (InSleep(t.procs[p].pc, ch) ==> InSleep(s.procs[p].pc, ch) || (a == SleepAcquire(ch) && InThread(s, i, p)))
    && (0 <= ch < |c.lockOf| ==> t.ver[ch] == s.ver[ch] + if Alters(a, ch) then 1 else 0)
    && (0 <= ch < |c.lockOf| && t.procs[p].seenCh == ch ==>
          || (s.procs[p].seenCh == ch && t.procs[p].seenVer == s.procs[p].seenVer)
          || (a == Test(ch) && InThread(s, i, p) && t.procs[p].seenVer == s.ver[ch]))
  }

  lemma SectionTraced(c: Config, s: State, i: nat, a: Action, t: State, j: nat, p: nat, ch: int)
    requires Sizes(c, s) && i < c.ncpu && p < c.nproc && NextSection(c, s, i, a, t)
    ensures Traced(c, s, i, a, t, j, p, ch)
  {}

  lemma WakeTraced(c: Config, s: State, i: nat, a: Action, t: State, j: nat, p: nat, ch: int)
    requires Sizes(c, s) && i < c.ncpu && p < c.nproc && NextWake(c, s, i, a, t)
    ensures Traced(c, s, i, a, t, j, p, ch)
  {}

  lemma OtherTraced(c: Config, s: State, i: nat, a: Action, t: State, j: nat, p: nat, ch: int)
    requires Sizes(c, s) && i < c.ncpu && p < c.nproc && NextOther(c, s, i, a, t)
    ensures Traced(c, s, i, a, t, j, p, ch)
  {}

  lemma SleepTraced(c: Config, s: State, i: nat, a: Action, t: State, j: nat, p: nat, ch: int)
    requires Sizes(c, s) && i < c.ncpu && p < c.nproc && NextSleep(c, s, i, a, t)
    ensures Traced(c, s, i, a, t, j, p, ch)
  {}

  lemma YieldTraced(c: Config, s: State, i: nat, a: Action, t: State, j: nat, p: nat, ch: int)
    requires Sizes(c, s) && i < c.ncpu && p < c.nproc && NextYield(c, s, i, a, t)
    ensures Traced(c, s, i, a, t, j, p, ch)
  {}

  lemma ExitTraced(c: Config, s: State, i: nat, a: Action, t: State, j: nat, p: nat, ch: int)
    requires Sizes(c, s) && i < c.ncpu && p < c.nproc && NextExit(c, s, i, a, t)
    ensures Traced(c, s, i, a, t, j, p, ch)
  {}

  lemma SchedTraced(c: Config, s: State, i: nat, a: Action, t: State, j: nat, p: nat, ch: int)
    requires Sizes(c, s) && i < c.ncpu && p < c.nproc && NextSched(c, s, i, a, t)
    ensures Traced(c, s, i, a, t, j, p, ch)
  {}

  lemma AnyTraced(c: Config, s: State, i: nat, a: Action, t: State, j: nat, p: nat, ch: int)
    requires Sizes(c, s) && i < c.ncpu && p < c.nproc && Next(c, s, i, a, t)
    ensures Traced(c, s, i, a, t, j, p, ch)
  {
    if NextSection(c, s, i, a, t) { SectionTraced(c, s, i, a, t, j, p, ch); }
    else if NextWake(c, s, i, a, t) { WakeTraced(c, s, i, a, t, j, p, ch); }
    else if NextOther(c, s, i, a, t) { OtherTraced(c, s, i, a, t, j, p, ch); }
    else if NextSleep(c, s, i, a, t) { SleepTraced(c, s, i, a, t, j, p, ch); }
    else if NextYield(c, s, i, a, t) { YieldTraced(c, s, i, a, t, j, p, ch); }
    else if NextExit(c, s, i, a, t) { ExitTraced(c, s, i, a, t, j, p, ch); }
    else { SchedTraced(c, s, i, a, t, j, p, ch); }
  }

  /** In every run. */
  lemma StepTraced(c: Config, run: seq<State>, who: seq<nat>, acts: seq<Action>, n: nat, j: nat, p: nat, ch: int)
    requires IsRun(c, run, who, acts) && n < |acts| && p < c.nproc
    ensures Sizes(c, run[n]) && who[n] < c.ncpu && Traced(c, run[n], who[n], acts[n], run[n + 1], j, p, ch)
  {
    RunInv(c, run, who, acts, n);
    assert Follows(c, run, who, acts, n);
    AnyTraced(c, run[n], who[n], acts[n], run[n + 1], j, p, ch);
  }

  // ---------- over runs ----------

  /** The edges of the diagram. */
  predicate Edge(x: PState, y: PState) {
    match x
    case UNUSED => y == USED
    case USED => y == RUNNABLE || y == UNUSED
    case RUNNABLE => y == RUNNING
    case RUNNING => y == RUNNABLE || y == SLEEPING || y == ZOMBIE
    case SLEEPING => y == RUNNABLE
    case ZOMBIE => y == UNUSED
  }

  lemma EdgeTaken(c: Config, s: State, i: nat, a: Action, t: State, p: nat)
    requires Base(c, s) && i < c.ncpu && p < c.nproc && Next(c, s, i, a, t)
    ensures NewState(s, i, a, p) != s.procs[p].state ==> Edge(s.procs[p].state, NewState(s, i, a, p)) && s.procs[p].lock == i
  {
    assert CpuOk(c, s, i) && LockOk(c, s, i, p) && ProcOk(s.procs[p]);
  }

  /** In every run the state of every process follows the diagram, and only the holder of p->lock changes it. */
  lemma StateDiagram(c: Config, run: seq<State>, who: seq<nat>, acts: seq<Action>, n: nat, p: nat)
    requires IsRun(c, run, who, acts) && n < |acts| && p < c.nproc
    ensures who[n] < |run[n].cpus| && p < |run[n].procs| == |run[n + 1].procs|
    ensures run[n + 1].procs[p].state == NewState(run[n], who[n], acts[n], p)
    ensures run[n + 1].procs[p].state != run[n].procs[p].state ==>
              Edge(run[n].procs[p].state, run[n + 1].procs[p].state) && run[n].procs[p].lock == who[n]
  {
    var s, i := run[n], who[n];
    RunInv(c, run, who, acts, n);
    assert Follows(c, run, who, acts, n);
    StepTraced(c, run, who, acts, n, i, p, NONE);
    EdgeTaken(c, s, i, acts[n], run[n + 1], p);
  }

  // ---------- what ends a sleep ----------

  ghost predicate Throughout(run: seq<State>, i: nat, ch: int, m: nat, n: nat) {
    forall k :: m < k <= n && k < |run| ==> i < |run[k].cpus| && InWakeup(run[k], i, ch)
  }

  lemma {:induction false} WakeupBegan(c: Config, run: seq<State>, who: seq<nat>, acts: seq<Action>, n: nat, i: nat, ch: int) returns (m: nat)
    requires IsRun(c, run, who, acts) && n < |run| && i < c.ncpu && i < |run[n].cpus| && InWakeup(run[n], i, ch)
    ensures m < n && who[m] == i && acts[m] == WakeStart(ch) && Throughout(run, i, ch, m, n)
  {
    m := n - 1;
    RunInv(c, run, who, acts, 0);
    StepTraced(c, run, who, acts, m, i, 0, ch);
    if InWakeup(run[m], i, ch) { m := WakeupBegan(c, run, who, acts, m, i, ch); }
  }

  /** What ends the sleep of p on ch, in every run: a kill of p, or the check of p by a CPU that has been in
      wakeup(ch) since an earlier step, with the lock of ch.  Whoever sleeps on another channel sleeps on. */
  lemma SleepEnds(c: Config, run: seq<State>, who: seq<nat>, acts: seq<Action>, n: nat, p: nat, ch: int)
    requires IsRun(c, run, who, acts) && n < |acts| && p < |run[n].procs| && run[n].procs[p].state == SLEEPING && run[n].procs[p].chan == ch
    ensures p < |run[n + 1].procs| && 0 <= ch < |c.lockOf| && c.lockOf[ch] < |run[n].locks|
    ensures who[n] < |run[n].cpus| && (run[n + 1].procs[p].state == SLEEPING || run[n + 1].procs[p].state == RUNNABLE)
    ensures run[n + 1].procs[p].state == RUNNABLE <==>
              run[n].cpus[who[n]].other == p && (acts[n].Kill? || (acts[n].WakeCheck? && InWakeup(run[n], who[n], ch)))
    ensures run[n + 1].procs[p].state == RUNNABLE && acts[n].WakeCheck? ==>
              && run[n].locks[c.lockOf[ch]] == who[n]
              && exists m: nat :: m < n && who[m] == who[n] && acts[m] == WakeStart(ch) && Throughout(run, who[n], ch, m, n)
  {
    RunInv(c, run, who, acts, n);
    var s, i := run[n], who[n];
    StateDiagram(c, run, who, acts, n, p);
    assert ProcOk(s.procs[p]) && Waiting(s.procs[p], ch);
    assert Follows(c, run, who, acts, n);
    EndsHow(c, s, i, acts[n], run[n + 1], p);
    assert SectOk(c, s, i);
    if acts[n].WakeCheck? && InWakeup(s, i, ch) { var m := WakeupBegan(c, run, who, acts, n, i, ch); }
  }

  lemma EndsHow(c: Config, s: State, i: nat, a: Action, t: State, p: nat)
    requires Base(c, s) && i < c.ncpu && p < c.nproc && Next(c, s, i, a, t) && s.procs[p].state == SLEEPING
    ensures NewState(s, i, a, p) == SLEEPING || NewState(s, i, a, p) == RUNNABLE
    ensures NewState(s, i, a, p) == RUNNABLE <==>
              s.cpus[i].other == p && (a.Kill? || (a.WakeCheck? && InWakeup(s, i, s.procs[p].chan)))
  {
    assert CpuOk(c, s, i) && ProcOk(s.procs[p]);
  }

  // ---------- what precedes a sleep ----------

  lemma {:induction false} SleepBegan(c: Config, run: seq<State>, who: seq<nat>, acts: seq<Action>, n: nat, p: nat, ch: int) returns (m: nat)
    requires IsRun(c, run, who, acts) && n < |run| && p < c.nproc && p < |run[n].procs| && InSleep(run[n].procs[p].pc, ch)
    ensures m < n && acts[m] == SleepAcquire(ch) && who[m] < |run[m].cpus| && run[m].cpus[who[m]].mode == Thread(p)
  {
    m := n - 1;
    StepTraced(c, run, who, acts, m, who[m], p, ch);
    if InSleep(run[m].procs[p].pc, ch) { m := SleepBegan(c, run, who, acts, m, p, ch); }
  }

  /** Whoever sleeps on ch has called sleep(ch), with the lock of ch. */
  lemma AsleepWhere(c: Config, run: seq<State>, who: seq<nat>, acts: seq<Action>, n: nat, p: nat)
    requires IsRun(c, run, who, acts) && n < |run| && p < |run[n].procs| && run[n].procs[p].state == SLEEPING
    ensures var ch := run[n].procs[p].chan;
            exists m: nat :: m < n && acts[m] == SleepAcquire(ch) && who[m] < |run[m].cpus| && run[m].cpus[who[m]].mode == Thread(p)
                             && 0 <= ch < |c.lockOf| && c.lockOf[ch] < |run[m].locks| && run[m].locks[c.lockOf[ch]] == who[m]
  {
    RunInv(c, run, who, acts, n);
    var ch := run[n].procs[p].chan;
    assert ProcOk(run[n].procs[p]);
    var m := SleepBegan(c, run, who, acts, n, p, ch);
    RunInv(c, run, who, acts, m);
    assert Follows(c, run, who, acts, m);
    assert SectOk(c, run[m], who[m]);
  }

  // ---------- what was tested ----------

  lemma {:induction false} VersionCounts(c: Config, run: seq<State>, who: seq<nat>, acts: seq<Action>, m: nat, n: nat, ch: nat)
    requires IsRun(c, run, who, acts) && m <= n < |run| && ch < |c.lockOf|
    ensures ch < |run[m].ver| && ch < |run[n].ver| && run[m].ver[ch] <= run[n].ver[ch]
    ensures run[m].ver[ch] == run[n].ver[ch] ==> forall k :: m <= k < n ==> !Alters(acts[k], ch)
    decreases n
  {
    RunInv(c, run, who, acts, n);
    if m < n {
      var k := n - 1;
      VersionCounts(c, run, who, acts, m, k, ch);
      StepTraced(c, run, who, acts, k, who[k], 0, ch);
    }
  }

  lemma {:induction false} TestMade(c: Config, run: seq<State>, who: seq<nat>, acts: seq<Action>, n: nat, p: nat, ch: nat) returns (m: nat)
    requires IsRun(c, run, who, acts) && n < |run| && ch < |c.lockOf| && p < c.nproc && p < |run[n].procs| && run[n].procs[p].seenCh == ch
    ensures m < n && acts[m] == Test(ch) && who[m] < |run[m].cpus| && run[m].cpus[who[m]].mode == Thread(p)
    ensures ch < |run[m].ver| && run[n].procs[p].seenVer == run[m].ver[ch]
  {
    m := n - 1;
    StepTraced(c, run, who, acts, m, who[m], p, ch);
    if run[m].procs[p].seenCh == ch && run[n].procs[p].seenVer == run[m].procs[p].seenVer { m := TestMade(c, run, who, acts, m, p, ch); }
  }

  /** No lost wakeup, in terms of what was done: if p sleeps on ch and the lock of ch is free, then p has tested
      the condition of ch, and nobody has changed it since. */
  lemma TestedSince(c: Config, run: seq<State>, who: seq<nat>, acts: seq<Action>, n: nat, p: nat, ch: nat)
    requires IsRun(c, run, who, acts) && n < |run| && p < |run[n].procs|
    requires run[n].procs[p].state == SLEEPING && run[n].procs[p].chan == ch
    requires ch < |c.lockOf| && c.lockOf[ch] < |run[n].locks| && run[n].locks[c.lockOf[ch]] == NONE
    ensures exists m: nat :: m < n && acts[m] == Test(ch) && who[m] < |run[m].cpus| && run[m].cpus[who[m]].mode == Thread(p)
                             && forall k :: m <= k < n ==> !Alters(acts[k], ch)
  {
    NoLostWakeup(c, run, who, acts, n, p, ch);
    RunInv(c, run, who, acts, n);
    var m := TestMade(c, run, who, acts, n, p, ch);
    VersionCounts(c, run, who, acts, m, n, ch);
  }
}
