/** The invariant of SleepMachine and its preservation by every step. */
module SleepProof {
  import opened SleepMachine

  ghost predicate Sizes(c: Config, s: State) {
    && ValidConfig(c) && |s.procs| == c.nproc && |s.cpus| == c.ncpu && |s.locks| == c.nlock && |s.ver| == |c.lockOf|
  }

  /** CPU i holds p->lock. */
  ghost predicate HoldsP(s: State, i: nat, p: nat)
    requires i < |s.cpus| && p < |s.procs|
  {
    var k := s.cpus[i];
    k.other == p || (!k.mode.SchedFree? && k.mode.p == p && (k.mode.Thread? ==> s.procs[p].pc != Free))
  }

  ghost predicate LockOk(c: Config, s: State, i: nat, p: nat)
    requires Sizes(c, s) && i < c.ncpu && p < c.nproc
  {
    NONE <= s.procs[p].lock < c.ncpu && (HoldsP(s, i, p) <==> s.procs[p].lock == i)
  }

  /** Condition lock l is held by a CPU inside a section on it. */
  ghost predicate HolderOk(c: Config, s: State, l: nat)
    requires Sizes(c, s) && l < c.nlock
  {
    && NONE <= s.locks[l] < c.ncpu
    && (s.locks[l] != NONE ==> s.cpus[s.locks[l]].sect.In? && s.cpus[s.locks[l]].sect.lk == l)
  }

  ghost predicate SectOk(c: Config, s: State, i: nat)
    requires Sizes(c, s) && i < c.ncpu
  {
    var k := s.cpus[i].sect;
    k.In? ==>
      && k.lk < c.nlock && s.locks[k.lk] == i
      && (k.scan.Scan? ==>
            0 <= k.scan.ch < |c.lockOf| && c.lockOf[k.scan.ch] == k.lk && k.scan.next <= c.nproc)
  }

  ghost predicate Resumable(pc: Pc) { pc.Slept? || pc.Yielded? || pc.Fresh? }

  /** The state a process has while its thread is at pc on a CPU. */
  ghost function StateAt(pc: Pc): PState {
    match pc
    case SleepReady(_) => SLEEPING
    case YieldReady => RUNNABLE
    case Exiting => ZOMBIE
    case Dead => ZOMBIE
    case _ => RUNNING
  }

  /** CPU i and the process it is about. */
  ghost predicate CpuOk(c: Config, s: State, i: nat)
    requires Sizes(c, s) && i < c.ncpu
  {
    var k := s.cpus[i];
    && NONE <= k.other < c.nproc
    && (k.other != NONE && k.sect.In? && k.sect.scan.Scan? ==> k.other == k.sect.scan.next)
    && match k.mode
       case SchedFree => k.proc == NONE
       case SchedLocked(p) => k.proc == NONE && p < c.nproc && k.sect.Out? && k.other == NONE
       case SchedDone(p) => k.proc == NONE && p < c.nproc && k.sect.Out? && k.other == NONE
       case SchedRunning(p) =>
         k.proc == NONE && p < c.nproc && k.sect.Out? && k.other == NONE && s.procs[p].state == RUNNING && Resumable(s.procs[p].pc)
       case SchedCur(p) =>
         k.proc == p < c.nproc && k.sect.Out? && k.other == NONE && s.procs[p].state == RUNNING && Resumable(s.procs[p].pc)
       case SchedBack(p) =>
         k.proc == p < c.nproc && k.sect.Out? && k.other == NONE && s.procs[p].state != RUNNING
       case Thread(p) =>
         && k.proc == p < c.nproc && k.other != p
         && s.procs[p].state == StateAt(s.procs[p].pc)
         && match s.procs[p].pc
            case Free => true
            case SleepLocked(ch) => k.other == NONE && Owns(c, s, i, ch)
            case ExitLocked => k.other == NONE && Inside(s, i)
            case Exiting => k.other == NONE && Inside(s, i)
            case _ => k.other == NONE && k.sect.Out?
  }

  ghost predicate ProcOk(p: Proc) {
    && (p.state == SLEEPING ==> (p.pc.SleepReady? || p.pc.Slept?) && p.chan == p.pc.ch)
    && (p.state == RUNNABLE ==> p.pc.YieldReady? || Resumable(p.pc))
    && (p.state == USED ==> p.pc.Fresh?)
    && (p.pc.SleepChanSet? ==> p.chan == p.pc.ch)
  }

  /** Inside sleep, yield or exit before swtch: still on the CPU that holds p->lock. */
  ghost predicate Transient(pc: Pc) {
    !pc.Free? && !pc.Dead? && !Resumable(pc)
  }

  ghost predicate OnCpu(c: Config, s: State, p: nat)
    requires Sizes(c, s) && p < c.nproc
  {
    Transient(s.procs[p].pc) ==>
      0 <= s.procs[p].lock < c.ncpu && s.cpus[s.procs[p].lock].mode == Thread(p)
  }

  /** CPU i runs p, or is between deciding to run it and noticing that it stopped. */
  ghost predicate Cur(s: State, i: nat, p: nat)
    requires i < |s.cpus|
  {
    var m := s.cpus[i].mode;
    m == SchedRunning(p) || m == SchedCur(p) || m == Thread(p) || m == SchedBack(p)
  }

  /** Locks, CPUs and processes: everything but the sleepers, for two CPUs and a process. */
  ghost predicate Facts(c: Config, s: State, i: nat, j: nat, p: nat)
    requires Sizes(c, s) && i < c.ncpu && j < c.ncpu && p < c.nproc
  {
    && CpuOk(c, s, i) && CpuOk(c, s, j) && LockOk(c, s, i, p) && LockOk(c, s, j, p)
    && (Cur(s, i, p) && Cur(s, j, p) ==> i == j)
    && ProcOk(s.procs[p]) && OnCpu(c, s, p)
  }

  /** p tested ch's condition, released the lock and has not been woken since. */
  ghost predicate Waiting(p: Proc, ch: int) {
    || p.pc == SleepReleased(ch) || p.pc == SleepChanSet(ch) || p.pc == SleepReady(ch)
    || (p.pc == Slept(ch) && p.state == SLEEPING)
  }

  /** The section k has already passed process p in wakeup(ch). */
  ghost predicate Passed(k: Section, ch: int, p: nat) {
    k.In? && (ch in k.woke || (k.scan.Scan? && k.scan.ch == ch && p < k.scan.next))
  }

  ghost predicate WaitOk(c: Config, s: State, p: nat, ch: int)
    requires Sizes(c, s) && p < c.nproc && 0 <= ch < |c.lockOf|
  {
    var h := s.locks[c.lockOf[ch]];
    Waiting(s.procs[p], ch) ==>
      && s.procs[p].seenCh == ch
      && (s.procs[p].seenVer == s.ver[ch] || (0 <= h < c.ncpu && s.cpus[h].sect.In? && ch in s.cpus[h].sect.bumped))
      && (0 <= h < c.ncpu ==> !Passed(s.cpus[h].sect, ch, p))
  }

  /** p is about to release the lock it tested under: its test is current. */
  ghost predicate TestOk(c: Config, s: State, p: nat)
    requires Sizes(c, s) && p < c.nproc
  {
    s.procs[p].pc.SleepLocked? ==>
      var ch := s.procs[p].pc.ch;
      0 <= ch < |c.lockOf| && s.procs[p].seenCh == ch && s.procs[p].seenVer == s.ver[ch]
  }

  ghost predicate Base(c: Config, s: State) {
    && Sizes(c, s)
    && (forall i :: 0 <= i < c.ncpu ==> CpuOk(c, s, i))
    && (forall p :: 0 <= p < c.nproc ==> ProcOk(s.procs[p]) && OnCpu(c, s, p))
    && (forall i, p :: 0 <= i < c.ncpu && 0 <= p < c.nproc ==> LockOk(c, s, i, p))
    && (forall i, j, p: nat :: 0 <= i < c.ncpu && 0 <= j < c.ncpu && Cur(s, i, p) && Cur(s, j, p) ==> i == j)
  }

  ghost predicate Sects(c: Config, s: State)
    requires Sizes(c, s)
  {
    && (forall i :: 0 <= i < c.ncpu ==> SectOk(c, s, i))
    && (forall l :: 0 <= l < c.nlock ==> HolderOk(c, s, l))
  }

  ghost predicate Sleepers(c: Config, s: State)
    requires Sizes(c, s)
  {
    && (forall p :: 0 <= p < c.nproc ==> TestOk(c, s, p))
    && (forall p, ch :: 0 <= p < c.nproc && Waiting(s.procs[p], ch) ==> 0 <= ch < |c.lockOf|)
    && (forall p, ch :: 0 <= p < c.nproc && 0 <= ch < |c.lockOf| ==> WaitOk(c, s, p, ch))
  }

  ghost predicate Inv(c: Config, s: State) {
    Base(c, s) && Sects(c, s) && Sleepers(c, s)
  }

  // ---------- locks, CPUs and processes ----------

  lemma SectionKeeps(c: Config, s: State, i: nat, a: Action, t: State, j: nat, p: nat)
    requires Sizes(c, s) && NextSection(c, s, i, a, t) && j < c.ncpu && p < c.nproc && Facts(c, s, i, j, p)
    ensures Sizes(c, t) && LockOk(c, t, j, p) && ProcOk(t.procs[p]) && OnCpu(c, t, p)
    ensures (Cur(t, i, p) && Cur(t, j, p) ==> i == j) && (j != i ==> t.cpus[j] == s.cpus[j])
  {}

  lemma SectionCpu(c: Config, s: State, i: nat, a: Action, t: State, j: nat, p: nat)
    requires Sizes(c, s) && NextSection(c, s, i, a, t) && j < c.ncpu && p < c.nproc && Facts(c, s, i, j, p)
    requires s.cpus[j].mode.SchedFree? || s.cpus[j].mode.p == p
    ensures Sizes(c, t) && CpuOk(c, t, j)
  {}

  lemma WakeKeeps(c: Config, s: State, i: nat, a: Action, t: State, j: nat, p: nat)
    requires Sizes(c, s) && NextWake(c, s, i, a, t) && j < c.ncpu && p < c.nproc && Facts(c, s, i, j, p)
    ensures Sizes(c, t) && LockOk(c, t, j, p) && ProcOk(t.procs[p]) && OnCpu(c, t, p)
    ensures (Cur(t, i, p) && Cur(t, j, p) ==> i == j) && (j != i ==> t.cpus[j] == s.cpus[j])
  {}

  lemma WakeCpu(c: Config, s: State, i: nat, a: Action, t: State, j: nat, p: nat)
    requires Sizes(c, s) && NextWake(c, s, i, a, t) && j < c.ncpu && p < c.nproc && Facts(c, s, i, j, p)
    requires s.cpus[j].mode.SchedFree? || s.cpus[j].mode.p == p
    ensures Sizes(c, t) && CpuOk(c, t, j)
  {}

  lemma OtherKeeps(c: Config, s: State, i: nat, a: Action, t: State, j: nat, p: nat)
    requires Sizes(c, s) && NextOther(c, s, i, a, t) && j < c.ncpu && p < c.nproc && Facts(c, s, i, j, p)
    ensures Sizes(c, t) && LockOk(c, t, j, p) && ProcOk(t.procs[p]) && OnCpu(c, t, p)
    ensures (Cur(t, i, p) && Cur(t, j, p) ==> i == j) && (j != i ==> t.cpus[j] == s.cpus[j])
  {}

  lemma OtherCpu(c: Config, s: State, i: nat, a: Action, t: State, j: nat, p: nat)
    requires Sizes(c, s) && NextOther(c, s, i, a, t) && j < c.ncpu && p < c.nproc && Facts(c, s, i, j, p)
    requires s.cpus[j].mode.SchedFree? || s.cpus[j].mode.p == p
    ensures Sizes(c, t) && CpuOk(c, t, j)
  {}

  lemma SleepKeeps(c: Config, s: State, i: nat, a: Action, t: State, j: nat, p: nat)
    requires Sizes(c, s) && NextSleep(c, s, i, a, t) && j < c.ncpu && p < c.nproc && Facts(c, s, i, j, p)
    ensures Sizes(c, t) && LockOk(c, t, j, p) && ProcOk(t.procs[p]) && OnCpu(c, t, p)
    ensures (Cur(t, i, p) && Cur(t, j, p) ==> i == j) && (j != i ==> t.cpus[j] == s.cpus[j])
  {}

  lemma SleepCpu(c: Config, s: State, i: nat, a: Action, t: State, j: nat, p: nat)
    requires Sizes(c, s) && NextSleep(c, s, i, a, t) && j < c.ncpu && p < c.nproc && Facts(c, s, i, j, p)
    requires s.cpus[j].mode.SchedFree? || s.cpus[j].mode.p == p
    ensures Sizes(c, t) && CpuOk(c, t, j)
  {}

  lemma YieldKeeps(c: Config, s: State, i: nat, a: Action, t: State, j: nat, p: nat)
    requires Sizes(c, s) && NextYield(c, s, i, a, t) && j < c.ncpu && p < c.nproc && Facts(c, s, i, j, p)
    ensures Sizes(c, t) && LockOk(c, t, j, p) && ProcOk(t.procs[p]) && OnCpu(c, t, p)
    ensures (Cur(t, i, p) && Cur(t, j, p) ==> i == j) && (j != i ==> t.cpus[j] == s.cpus[j])
  {}

  lemma YieldCpu(c: Config, s: State, i: nat, a: Action, t: State, j: nat, p: nat)
    requires Sizes(c, s) && NextYield(c, s, i, a, t) && j < c.ncpu && p < c.nproc && Facts(c, s, i, j, p)
    requires s.cpus[j].mode.SchedFree? || s.cpus[j].mode.p == p
    ensures Sizes(c, t) && CpuOk(c, t, j)
  {}

  lemma ExitKeeps(c: Config, s: State, i: nat, a: Action, t: State, j: nat, p: nat)
    requires Sizes(c, s) && NextExit(c, s, i, a, t) && j < c.ncpu && p < c.nproc && Facts(c, s, i, j, p)
    ensures Sizes(c, t) && LockOk(c, t, j, p) && ProcOk(t.procs[p]) && OnCpu(c, t, p)
    ensures (Cur(t, i, p) && Cur(t, j, p) ==> i == j) && (j != i ==> t.cpus[j] == s.cpus[j])
  {}

  lemma ExitCpu(c: Config, s: State, i: nat, a: Action, t: State, j: nat, p: nat)
    requires Sizes(c, s) && NextExit(c, s, i, a, t) && j < c.ncpu && p < c.nproc && Facts(c, s, i, j, p)
    requires s.cpus[j].mode.SchedFree? || s.cpus[j].mode.p == p
    ensures Sizes(c, t) && CpuOk(c, t, j)
  {}

  lemma SchedKeeps(c: Config, s: State, i: nat, a: Action, t: State, j: nat, p: nat)
    requires Sizes(c, s) && NextSched(c, s, i, a, t) && j < c.ncpu && p < c.nproc && Facts(c, s, i, j, p)
    ensures Sizes(c, t) && LockOk(c, t, j, p) && ProcOk(t.procs[p]) && OnCpu(c, t, p)
    ensures (Cur(t, i, p) && Cur(t, j, p) ==> i == j) && (j != i ==> t.cpus[j] == s.cpus[j])
  {}

  lemma SchedCpu(c: Config, s: State, i: nat, a: Action, t: State, j: nat, p: nat)
    requires Sizes(c, s) && NextSched(c, s, i, a, t) && j < c.ncpu && p < c.nproc && Facts(c, s, i, j, p)
    requires s.cpus[j].mode.SchedFree? || s.cpus[j].mode.p == p
    ensures Sizes(c, t) && CpuOk(c, t, j)
  {}

  // ---------- sections and sleepers ----------

  lemma SectionSects(c: Config, s: State, i: nat, a: Action, t: State, j: nat, l: nat)
    requires Sizes(c, s) && NextSection(c, s, i, a, t) && j < c.ncpu && l < c.nlock
    requires SectOk(c, s, i) && SectOk(c, s, j) && HolderOk(c, s, l)
    ensures Sizes(c, t) && SectOk(c, t, j) && HolderOk(c, t, l)
  {}

  lemma SectionWaits(c: Config, s: State, i: nat, a: Action, t: State, j: nat, p: nat, ch: int)
    requires Sizes(c, s) && NextSection(c, s, i, a, t) && j < c.ncpu && p < c.nproc && Facts(c, s, i, j, p)
    requires s.procs[p].lock != NONE ==> j == s.procs[p].lock
    requires SectOk(c, s, i) && SectOk(c, s, j) && TestOk(c, s, p)
    requires Waiting(s.procs[p], ch) ==> 0 <= ch < |c.lockOf|
    requires 0 <= ch < |c.lockOf| ==> HolderOk(c, s, c.lockOf[ch]) && WaitOk(c, s, p, ch)
    ensures Sizes(c, t) && TestOk(c, t, p) && (Waiting(t.procs[p], ch) ==> 0 <= ch < |c.lockOf|)
    ensures 0 <= ch < |c.lockOf| ==> WaitOk(c, t, p, ch)
  {}

  lemma WakeSects(c: Config, s: State, i: nat, a: Action, t: State, j: nat, l: nat)
    requires Sizes(c, s) && NextWake(c, s, i, a, t) && j < c.ncpu && l < c.nlock
    requires SectOk(c, s, i) && SectOk(c, s, j) && HolderOk(c, s, l)
    ensures Sizes(c, t) && SectOk(c, t, j) && HolderOk(c, t, l)
  {}

  lemma WakeWaits(c: Config, s: State, i: nat, a: Action, t: State, j: nat, p: nat, ch: int)
    requires Sizes(c, s) && NextWake(c, s, i, a, t) && j < c.ncpu && p < c.nproc && Facts(c, s, i, j, p)
    requires s.procs[p].lock != NONE ==> j == s.procs[p].lock
    requires SectOk(c, s, i) && SectOk(c, s, j) && TestOk(c, s, p)
    requires Waiting(s.procs[p], ch) ==> 0 <= ch < |c.lockOf|
    requires 0 <= ch < |c.lockOf| ==> HolderOk(c, s, c.lockOf[ch]) && WaitOk(c, s, p, ch)
    ensures Sizes(c, t) && TestOk(c, t, p) && (Waiting(t.procs[p], ch) ==> 0 <= ch < |c.lockOf|)
    ensures 0 <= ch < |c.lockOf| ==> WaitOk(c, t, p, ch)
  {}

  lemma OtherSects(c: Config, s: State, i: nat, a: Action, t: State, j: nat, l: nat)
    requires Sizes(c, s) && NextOther(c, s, i, a, t) && j < c.ncpu && l < c.nlock
    requires SectOk(c, s, i) && SectOk(c, s, j) && HolderOk(c, s, l)
    ensures Sizes(c, t) && SectOk(c, t, j) && HolderOk(c, t, l)
  {}

  lemma OtherWaits(c: Config, s: State, i: nat, a: Action, t: State, j: nat, p: nat, ch: int)
    requires Sizes(c, s) && NextOther(c, s, i, a, t) && j < c.ncpu && p < c.nproc && Facts(c, s, i, j, p)
    requires s.procs[p].lock != NONE ==> j == s.procs[p].lock
    requires SectOk(c, s, i) && SectOk(c, s, j) && TestOk(c, s, p)
    requires Waiting(s.procs[p], ch) ==> 0 <= ch < |c.lockOf|
    requires 0 <= ch < |c.lockOf| ==> HolderOk(c, s, c.lockOf[ch]) && WaitOk(c, s, p, ch)
    ensures Sizes(c, t) && TestOk(c, t, p) && (Waiting(t.procs[p], ch) ==> 0 <= ch < |c.lockOf|)
    ensures 0 <= ch < |c.lockOf| ==> WaitOk(c, t, p, ch)
  {}

  lemma SleepSects(c: Config, s: State, i: nat, a: Action, t: State, j: nat, l: nat)
    requires Sizes(c, s) && NextSleep(c, s, i, a, t) && j < c.ncpu && l < c.nlock
    requires SectOk(c, s, i) && SectOk(c, s, j) && HolderOk(c, s, l)
    ensures Sizes(c, t) && SectOk(c, t, j) && HolderOk(c, t, l)
  {}

  lemma SleepWaits(c: Config, s: State, i: nat, a: Action, t: State, j: nat, p: nat, ch: int)
    requires Sizes(c, s) && NextSleep(c, s, i, a, t) && j < c.ncpu && p < c.nproc && Facts(c, s, i, j, p)
    requires s.procs[p].lock != NONE ==> j == s.procs[p].lock
    requires SectOk(c, s, i) && SectOk(c, s, j) && TestOk(c, s, p)
    requires Waiting(s.procs[p], ch) ==> 0 <= ch < |c.lockOf|
    requires 0 <= ch < |c.lockOf| ==> HolderOk(c, s, c.lockOf[ch]) && WaitOk(c, s, p, ch)
    ensures Sizes(c, t) && TestOk(c, t, p) && (Waiting(t.procs[p], ch) ==> 0 <= ch < |c.lockOf|)
    ensures 0 <= ch < |c.lockOf| ==> WaitOk(c, t, p, ch)
  {}

  lemma YieldSects(c: Config, s: State, i: nat, a: Action, t: State, j: nat, l: nat)
    requires Sizes(c, s) && NextYield(c, s, i, a, t) && j < c.ncpu && l < c.nlock
    requires SectOk(c, s, i) && SectOk(c, s, j) && HolderOk(c, s, l)
    ensures Sizes(c, t) && SectOk(c, t, j) && HolderOk(c, t, l)
  {}

  lemma YieldWaits(c: Config, s: State, i: nat, a: Action, t: State, j: nat, p: nat, ch: int)
    requires Sizes(c, s) && NextYield(c, s, i, a, t) && j < c.ncpu && p < c.nproc && Facts(c, s, i, j, p)
    requires s.procs[p].lock != NONE ==> j == s.procs[p].lock
    requires SectOk(c, s, i) && SectOk(c, s, j) && TestOk(c, s, p)
    requires Waiting(s.procs[p], ch) ==> 0 <= ch < |c.lockOf|
    requires 0 <= ch < |c.lockOf| ==> HolderOk(c, s, c.lockOf[ch]) && WaitOk(c, s, p, ch)
    ensures Sizes(c, t) && TestOk(c, t, p) && (Waiting(t.procs[p], ch) ==> 0 <= ch < |c.lockOf|)
    ensures 0 <= ch < |c.lockOf| ==> WaitOk(c, t, p, ch)
  {}

  lemma ExitSects(c: Config, s: State, i: nat, a: Action, t: State, j: nat, l: nat)
    requires Sizes(c, s) && NextExit(c, s, i, a, t) && j < c.ncpu && l < c.nlock
    requires SectOk(c, s, i) && SectOk(c, s, j) && HolderOk(c, s, l)
    ensures Sizes(c, t) && SectOk(c, t, j) && HolderOk(c, t, l)
  {}

  lemma ExitWaits(c: Config, s: State, i: nat, a: Action, t: State, j: nat, p: nat, ch: int)
    requires Sizes(c, s) && NextExit(c, s, i, a, t) && j < c.ncpu && p < c.nproc && Facts(c, s, i, j, p)
    requires s.procs[p].lock != NONE ==> j == s.procs[p].lock
    requires SectOk(c, s, i) && SectOk(c, s, j) && TestOk(c, s, p)
    requires Waiting(s.procs[p], ch) ==> 0 <= ch < |c.lockOf|
    requires 0 <= ch < |c.lockOf| ==> HolderOk(c, s, c.lockOf[ch]) && WaitOk(c, s, p, ch)
    ensures Sizes(c, t) && TestOk(c, t, p) && (Waiting(t.procs[p], ch) ==> 0 <= ch < |c.lockOf|)
    ensures 0 <= ch < |c.lockOf| ==> WaitOk(c, t, p, ch)
  {}

  lemma SchedSects(c: Config, s: State, i: nat, a: Action, t: State, j: nat, l: nat)
    requires Sizes(c, s) && NextSched(c, s, i, a, t) && j < c.ncpu && l < c.nlock
    requires SectOk(c, s, i) && SectOk(c, s, j) && HolderOk(c, s, l)
    ensures Sizes(c, t) && SectOk(c, t, j) && HolderOk(c, t, l)
  {}

  lemma SchedWaits(c: Config, s: State, i: nat, a: Action, t: State, j: nat, p: nat, ch: int)
    requires Sizes(c, s) && NextSched(c, s, i, a, t) && j < c.ncpu && p < c.nproc && Facts(c, s, i, j, p)
    requires s.procs[p].lock != NONE ==> j == s.procs[p].lock
    requires SectOk(c, s, i) && SectOk(c, s, j) && TestOk(c, s, p)
    requires Waiting(s.procs[p], ch) ==> 0 <= ch < |c.lockOf|
    requires 0 <= ch < |c.lockOf| ==> HolderOk(c, s, c.lockOf[ch]) && WaitOk(c, s, p, ch)
    ensures Sizes(c, t) && TestOk(c, t, p) && (Waiting(t.procs[p], ch) ==> 0 <= ch < |c.lockOf|)
    ensures 0 <= ch < |c.lockOf| ==> WaitOk(c, t, p, ch)
  {}

  // ---------- any step ----------

  lemma AnyKeeps(c: Config, s: State, i: nat, a: Action, t: State, j: nat, p: nat)
    requires Sizes(c, s) && Next(c, s, i, a, t) && j < c.ncpu && p < c.nproc && Facts(c, s, i, j, p)
    ensures Sizes(c, t) && LockOk(c, t, j, p) && ProcOk(t.procs[p]) && OnCpu(c, t, p)
    ensures (Cur(t, i, p) && Cur(t, j, p) ==> i == j) && (j != i ==> t.cpus[j] == s.cpus[j])
  {
    if NextSection(c, s, i, a, t) { SectionKeeps(c, s, i, a, t, j, p); }
    else if NextWake(c, s, i, a, t) { WakeKeeps(c, s, i, a, t, j, p); }
    else if NextOther(c, s, i, a, t) { OtherKeeps(c, s, i, a, t, j, p); }
    else if NextSleep(c, s, i, a, t) { SleepKeeps(c, s, i, a, t, j, p); }
    else if NextYield(c, s, i, a, t) { YieldKeeps(c, s, i, a, t, j, p); }
    else if NextExit(c, s, i, a, t) { ExitKeeps(c, s, i, a, t, j, p); }
    else if NextSched(c, s, i, a, t) { SchedKeeps(c, s, i, a, t, j, p); }
  }

  lemma AnyCpu(c: Config, s: State, i: nat, a: Action, t: State, j: nat, p: nat)
    requires Sizes(c, s) && Next(c, s, i, a, t) && j < c.ncpu && p < c.nproc && Facts(c, s, i, j, p)
    requires s.cpus[j].mode.SchedFree? || s.cpus[j].mode.p == p
    ensures Sizes(c, t) && CpuOk(c, t, j)
  {
    if NextSection(c, s, i, a, t) { SectionCpu(c, s, i, a, t, j, p); }
    else if NextWake(c, s, i, a, t) { WakeCpu(c, s, i, a, t, j, p); }
    else if NextOther(c, s, i, a, t) { OtherCpu(c, s, i, a, t, j, p); }
    else if NextSleep(c, s, i, a, t) { SleepCpu(c, s, i, a, t, j, p); }
    else if NextYield(c, s, i, a, t) { YieldCpu(c, s, i, a, t, j, p); }
    else if NextExit(c, s, i, a, t) { ExitCpu(c, s, i, a, t, j, p); }
    else if NextSched(c, s, i, a, t) { SchedCpu(c, s, i, a, t, j, p); }
  }

  lemma AnySects(c: Config, s: State, i: nat, a: Action, t: State, j: nat, l: nat)
    requires Sizes(c, s) && Next(c, s, i, a, t) && j < c.ncpu && l < c.nlock
    requires SectOk(c, s, i) && SectOk(c, s, j) && HolderOk(c, s, l)
    ensures Sizes(c, t) && SectOk(c, t, j) && HolderOk(c, t, l)
  {
    if NextSection(c, s, i, a, t) { SectionSects(c, s, i, a, t, j, l); }
    else if NextWake(c, s, i, a, t) { WakeSects(c, s, i, a, t, j, l); }
    else if NextOther(c, s, i, a, t) { OtherSects(c, s, i, a, t, j, l); }
    else if NextSleep(c, s, i, a, t) { SleepSects(c, s, i, a, t, j, l); }
    else if NextYield(c, s, i, a, t) { YieldSects(c, s, i, a, t, j, l); }
    else if NextExit(c, s, i, a, t) { ExitSects(c, s, i, a, t, j, l); }
    else if NextSched(c, s, i, a, t) { SchedSects(c, s, i, a, t, j, l); }
  }

  lemma AnyWaits(c: Config, s: State, i: nat, a: Action, t: State, j: nat, p: nat, ch: int)
    requires Sizes(c, s) && Next(c, s, i, a, t) && j < c.ncpu && p < c.nproc && Facts(c, s, i, j, p)
    requires s.procs[p].lock != NONE ==> j == s.procs[p].lock
    requires SectOk(c, s, i) && SectOk(c, s, j) && TestOk(c, s, p)
    requires Waiting(s.procs[p], ch) ==> 0 <= ch < |c.lockOf|
    requires 0 <= ch < |c.lockOf| ==> HolderOk(c, s, c.lockOf[ch]) && WaitOk(c, s, p, ch)
    ensures Sizes(c, t) && TestOk(c, t, p) && (Waiting(t.procs[p], ch) ==> 0 <= ch < |c.lockOf|)
    ensures 0 <= ch < |c.lockOf| ==> WaitOk(c, t, p, ch)
  {
    if NextSection(c, s, i, a, t) { SectionWaits(c, s, i, a, t, j, p, ch); }
    else if NextWake(c, s, i, a, t) { WakeWaits(c, s, i, a, t, j, p, ch); }
    else if NextOther(c, s, i, a, t) { OtherWaits(c, s, i, a, t, j, p, ch); }
    else if NextSleep(c, s, i, a, t) { SleepWaits(c, s, i, a, t, j, p, ch); }
    else if NextYield(c, s, i, a, t) { YieldWaits(c, s, i, a, t, j, p, ch); }
    else if NextExit(c, s, i, a, t) { ExitWaits(c, s, i, a, t, j, p, ch); }
    else if NextSched(c, s, i, a, t) { SchedWaits(c, s, i, a, t, j, p, ch); }
  }
}
