/** sleep, wakeup and the scheduler of kernel/proc.c as an interleaving machine.

    Every step is taken by one CPU and is at most one lock operation or one
    store made under a lock.  A spinlock is held by a CPU, as in
    kernel/spinlock.c: the scheduler acquires p->lock, and after swtch the
    process it switched to releases it on the same CPU.

    A condition is represented by a version number per channel.  The code that
    changes the condition of a channel holds the channel's lock; so does the code
    that tests it before sleeping. */
module SleepMachine {

  /** Channel ch is waited on with spinlock lockOf[ch] (sleep's second argument). */
  datatype Config = Config(nproc: nat, ncpu: nat, nlock: nat, lockOf: seq<nat>)

  ghost predicate ValidConfig(c: Config) {
    0 < c.nproc && 0 < c.nlock && forall ch :: 0 <= ch < |c.lockOf| ==> c.lockOf[ch] < c.nlock
  }

  datatype PState = UNUSED | USED | SLEEPING | RUNNABLE | RUNNING | ZOMBIE

  /** Where a process's kernel thread is. */
  datatype Pc =
    | Free                       // anywhere that does not hold p->lock
    | SleepLocked(ch: int)       // sleep: p->lock held, lk still held
    | SleepReleased(ch: int)     // sleep: lk released
    | SleepChanSet(ch: int)      // sleep: p->chan stored
    | SleepReady(ch: int)        // sleep: p->state = SLEEPING, about to swtch
    | Slept(ch: int)             // sleep: switched out; continues after sched
    | Woken                      // sleep: p->chan = 0, p->lock still held
    | YieldLocked | YieldReady | Yielded
    | Fresh                      // starts in forkret
    | ExitLocked | Exiting       // exit: before and after p->state = ZOMBIE
    | Dead                       // exit: wait_lock released, never returns

  const NONE := -1

  /** `lock` is the CPU holding p->lock, or NONE.  seenCh and seenVer record the
      thread's last test of a condition. */
  datatype Proc = Proc(state: PState, chan: int, pc: Pc, lock: int, seenCh: int, seenVer: nat)

  datatype Mode =
    | SchedFree                  // scheduler, no lock held
    | SchedLocked(p: nat)        // scheduler holds p->lock
    | SchedRunning(p: nat)       // p->state = RUNNING stored
    | SchedCur(p: nat)           // c->proc = p stored, about to swtch
    | Thread(p: nat)             // executing p's kernel thread
    | SchedBack(p: nat)          // swtch returned to the scheduler
    | SchedDone(p: nat)          // c->proc = 0 stored

  datatype Scan = NoScan | Scan(ch: int, next: nat)   // wakeup's loop

  /** A critical section on a condition lock: the channels whose condition it has
      changed and those it has finished waking. */
  datatype Section = Out | In(lk: nat, bumped: set<int>, woke: set<int>, scan: Scan)

  /** `other` is another process whose lock this CPU holds (wakeup, kill, wait, fork). */
  datatype Cpu = Cpu(proc: int, mode: Mode, sect: Section, other: int)

  datatype State = State(procs: seq<Proc>, cpus: seq<Cpu>, locks: seq<int>, ver: seq<nat>)

  datatype Action =
    | AcquireLk(lk: nat) | Bump(ch: int) | Test(ch: int) | ReleaseLk
    | WakeStart(ch: int) | WakeSkip | WakeLock | WakeCheck | WakeDone
    | PLock(q: nat) | Kill | Reap | Alloc | Discard | Ready | PUnlock
    | SleepAcquire(ch: int) | SleepRelease | SleepChan | SleepState
    | Resume | FinishSleep
    | YieldLock | YieldState | ExitLock | ExitZombie(ch: int) | ExitRelease
    | Unlock                     // yield and forkret release p->lock
    | Sched
    | SchedLock(p: nat) | SchedSkip | SchedRun | SchedSet | SchedSwitch | SchedClear | SchedRelease

  // ---------- small helpers ----------

  predicate InRange(c: Config, s: State, i: nat) {
    |s.procs| == c.nproc && |s.cpus| == c.ncpu && |s.locks| == c.nlock && |s.ver| == |c.lockOf| && i < c.ncpu
  }

  function SetCpu(s: State, i: nat, k: Cpu): State
    requires i < |s.cpus|
  { s.(cpus := s.cpus[i := k]) }

  function SetProc(s: State, p: nat, q: Proc): State
    requires p < |s.procs|
  { s.(procs := s.procs[p := q]) }

  /** CPU i may start a lock operation of its own: it runs a thread outside sleep,
      yield and exit, or takes an interrupt in the idle scheduler. */
  ghost predicate MayCall(s: State, i: nat) {
    && i < |s.cpus| && s.cpus[i].other == NONE
    && (s.cpus[i].mode == SchedFree
        || (s.cpus[i].mode.Thread? && s.cpus[i].mode.p < |s.procs| && s.procs[s.cpus[i].mode.p].pc == Free))
  }

  ghost predicate Inside(s: State, i: nat) {
    i < |s.cpus| && s.cpus[i].sect.In? && s.cpus[i].sect.scan.NoScan?
  }

  /** Channel ch belongs to the lock that CPU i's section holds. */
  ghost predicate Owns(c: Config, s: State, i: nat, ch: int) {
    Inside(s, i) && 0 <= ch < |c.lockOf| && c.lockOf[ch] == s.cpus[i].sect.lk
  }

  // ---------- critical sections and wakeup ----------

  ghost predicate NextSection(c: Config, s: State, i: nat, a: Action, t: State) {
    && InRange(c, s, i) && MayCall(s, i)
    && var k := s.cpus[i];
       match a
       case AcquireLk(lk) =>
         && k.sect.Out? && lk < c.nlock && s.locks[lk] == NONE
         && t == SetCpu(s, i, k.(sect := In(lk, {}, {}, NoScan))).(locks := s.locks[lk := i])
       case Bump(ch) =>
         && Owns(c, s, i, ch)
         && t == SetCpu(s, i, k.(sect := k.sect.(bumped := k.sect.bumped + {ch}))).(ver := s.ver[ch := s.ver[ch] + 1])
       case Test(ch) =>
         && Owns(c, s, i, ch) && k.mode.Thread?
         && t == SetProc(s, k.mode.p, s.procs[k.mode.p].(seenCh := ch, seenVer := s.ver[ch]))
       case ReleaseLk =>
         && Inside(s, i) && k.sect.lk < c.nlock && k.sect.bumped <= k.sect.woke
         && t == SetCpu(s, i, k.(sect := Out)).(locks := s.locks[k.sect.lk := NONE])
       case WakeStart(ch) =>
         && Owns(c, s, i, ch)
         && t == SetCpu(s, i, k.(sect := k.sect.(scan := Scan(ch, 0))))
       case _ => false
  }

  ghost predicate NextWake(c: Config, s: State, i: nat, a: Action, t: State) {
    && InRange(c, s, i) && s.cpus[i].sect.In? && s.cpus[i].sect.scan.Scan?
    && var k := s.cpus[i];
       var q := k.sect.scan.next;
       var after := k.(sect := k.sect.(scan := Scan(k.sect.scan.ch, q + 1)), other := NONE);
       match a
       case WakeSkip =>  // p == myproc()
         k.other == NONE && q < c.nproc && k.mode == Thread(q) && t == SetCpu(s, i, after)
       case WakeLock =>
         && k.other == NONE && q < c.nproc && k.mode != Thread(q) && s.procs[q].lock == NONE
         && t == SetCpu(SetProc(s, q, s.procs[q].(lock := i)), i, k.(other := q))
       case WakeCheck =>
         && k.other == q < c.nproc
         && var p := s.procs[q];
            t == SetCpu(SetProc(s, q, p.(lock := NONE,
                   state := if p.state == SLEEPING && p.chan == k.sect.scan.ch then RUNNABLE else p.state)), i, after)
       case WakeDone =>
         && k.other == NONE && q == c.nproc
         && t == SetCpu(s, i, k.(sect := k.sect.(scan := NoScan, woke := k.sect.woke + {k.sect.scan.ch})))
       case _ => false
  }

  // ---------- kill, wait, allocproc, fork: another process's lock ----------

  ghost predicate NextOther(c: Config, s: State, i: nat, a: Action, t: State) {
    && InRange(c, s, i) && (s.cpus[i].sect.In? ==> s.cpus[i].sect.scan.NoScan?)
    && var k := s.cpus[i];
       if a.PLock? then
         && MayCall(s, i) && a.q < c.nproc && k.mode != Thread(a.q) && s.procs[a.q].lock == NONE
         && t == SetCpu(SetProc(s, a.q, s.procs[a.q].(lock := i)), i, k.(other := a.q))
       else
         && 0 <= k.other < c.nproc
         && var p := s.procs[k.other];
            match a
            case Kill => p.state == SLEEPING && t == SetProc(s, k.other, p.(state := RUNNABLE))
            case Reap => p.state == ZOMBIE && t == SetProc(s, k.other, p.(state := UNUSED, chan := NONE))
            case Alloc => p.state == UNUSED && t == SetProc(s, k.other, p.(state := USED, pc := Fresh, seenCh := NONE))
            case Discard => p.state == USED && t == SetProc(s, k.other, p.(state := UNUSED, chan := NONE, pc := Dead))
            case Ready => p.state == USED && t == SetProc(s, k.other, p.(state := RUNNABLE))
            case PUnlock => t == SetCpu(SetProc(s, k.other, p.(lock := NONE)), i, k.(other := NONE))
            case _ => false
  }

  // ---------- sleep ----------

  ghost predicate NextSleep(c: Config, s: State, i: nat, a: Action, t: State) {
    && InRange(c, s, i) && s.cpus[i].mode.Thread? && s.cpus[i].mode.p < c.nproc && s.cpus[i].other == NONE
    && var k := s.cpus[i];
       var p := s.procs[k.mode.p];
       match a
       case SleepAcquire(ch) =>
         && p.pc == Free && Owns(c, s, i, ch) && p.seenCh == ch && p.seenVer == s.ver[ch] && p.lock == NONE
         && t == SetProc(s, k.mode.p, p.(lock := i, pc := SleepLocked(ch)))
       case SleepRelease =>
         && p.pc.SleepLocked? && Inside(s, i) && k.sect.lk < c.nlock && k.sect.bumped <= k.sect.woke
         && t == SetCpu(SetProc(s, k.mode.p, p.(pc := SleepReleased(p.pc.ch))), i, k.(sect := Out))
                   .(locks := s.locks[k.sect.lk := NONE])
       case SleepChan =>
         p.pc.SleepReleased? && t == SetProc(s, k.mode.p, p.(chan := p.pc.ch, pc := SleepChanSet(p.pc.ch)))
       case SleepState =>
         p.pc.SleepChanSet? && t == SetProc(s, k.mode.p, p.(state := SLEEPING, pc := SleepReady(p.pc.ch)))
       case Resume =>
         p.pc.Slept? && t == SetProc(s, k.mode.p, p.(chan := NONE, pc := Woken))
       case FinishSleep =>
         p.pc.Woken? && t == SetProc(s, k.mode.p, p.(lock := NONE, pc := Free))
       case _ => false
  }

  // ---------- yield, forkret, sched ----------

  ghost predicate NextYield(c: Config, s: State, i: nat, a: Action, t: State) {
    && InRange(c, s, i) && s.cpus[i].mode.Thread? && s.cpus[i].mode.p < c.nproc && s.cpus[i].other == NONE
    && var k := s.cpus[i];
       var p := s.procs[k.mode.p];
       match a
       case YieldLock =>
         p.pc == Free && k.sect.Out? && p.lock == NONE
         && t == SetProc(s, k.mode.p, p.(lock := i, pc := YieldLocked))
       case YieldState =>
         p.pc.YieldLocked? && t == SetProc(s, k.mode.p, p.(state := RUNNABLE, pc := YieldReady))
       case Unlock =>
         (p.pc.Yielded? || p.pc.Fresh?) && t == SetProc(s, k.mode.p, p.(lock := NONE, pc := Free))
       case Sched =>  // swtch to the scheduler
         && (p.pc.SleepReady? || p.pc.YieldReady? || p.pc.Dead?)
         && t == SetCpu(SetProc(s, k.mode.p, p.(pc := match p.pc
                                                     case SleepReady(ch) => Slept(ch)
                                                     case YieldReady => Yielded
                                                     case _ => Dead)), i, k.(mode := SchedBack(k.mode.p)))
       case _ => false
  }

  // ---------- exit ----------

  ghost predicate NextExit(c: Config, s: State, i: nat, a: Action, t: State) {
    && InRange(c, s, i) && s.cpus[i].mode.Thread? && s.cpus[i].mode.p < c.nproc && s.cpus[i].other == NONE
    && var k := s.cpus[i];
       var p := s.procs[k.mode.p];
       match a
       case ExitLock =>
         p.pc == Free && Inside(s, i) && p.lock == NONE
         && t == SetProc(s, k.mode.p, p.(lock := i, pc := ExitLocked))
       case ExitZombie(ch) =>  // the change that the parent waits for
         && p.pc.ExitLocked? && Owns(c, s, i, ch)
         && t == SetCpu(SetProc(s, k.mode.p, p.(state := ZOMBIE, pc := Exiting)), i,
                        k.(sect := k.sect.(bumped := k.sect.bumped + {ch}))).(ver := s.ver[ch := s.ver[ch] + 1])
       case ExitRelease =>
         && p.pc.Exiting? && Inside(s, i) && k.sect.lk < c.nlock && k.sect.bumped <= k.sect.woke
         && t == SetCpu(SetProc(s, k.mode.p, p.(pc := Dead)), i, k.(sect := Out)).(locks := s.locks[k.sect.lk := NONE])
       case _ => false
  }

  // ---------- scheduler ----------

  ghost predicate NextSched(c: Config, s: State, i: nat, a: Action, t: State) {
    && InRange(c, s, i)
    && var k := s.cpus[i];
       if a.SchedLock? then
         && k.mode.SchedFree? && k.sect.Out? && k.other == NONE && a.p < c.nproc && s.procs[a.p].lock == NONE
         && t == SetCpu(SetProc(s, a.p, s.procs[a.p].(lock := i)), i, k.(mode := SchedLocked(a.p)))
       else if k.mode.SchedFree? || k.mode.p >= c.nproc then false
       else
         var n := k.mode.p;
         var p := s.procs[n];
         match a
         case SchedSkip =>
           && k.mode.SchedLocked? && p.state != RUNNABLE
           && t == SetCpu(SetProc(s, n, p.(lock := NONE)), i, k.(mode := SchedFree))
         case SchedRun =>
           && k.mode.SchedLocked? && p.state == RUNNABLE
           && t == SetCpu(SetProc(s, n, p.(state := RUNNING)), i, k.(mode := SchedRunning(n)))
         case SchedSet =>
           k.mode.SchedRunning? && t == SetCpu(s, i, k.(proc := n, mode := SchedCur(n)))
         case SchedSwitch =>
           k.mode.SchedCur? && t == SetCpu(s, i, k.(mode := Thread(n)))
         case SchedClear =>
           k.mode.SchedBack? && t == SetCpu(s, i, k.(proc := NONE, mode := SchedDone(n)))
         case SchedRelease =>
           k.mode.SchedDone? && t == SetCpu(SetProc(s, n, p.(lock := NONE)), i, k.(mode := SchedFree))
         case _ => false
  }

  ghost predicate Next(c: Config, s: State, i: nat, a: Action, t: State) {
    NextSection(c, s, i, a, t) || NextWake(c, s, i, a, t) || NextOther(c, s, i, a, t)
    || NextSleep(c, s, i, a, t) || NextYield(c, s, i, a, t)
    || NextExit(c, s, i, a, t) || NextSched(c, s, i, a, t)
  }

  ghost predicate Init(c: Config, s: State) {
    && ValidConfig(c) && |s.procs| == c.nproc && |s.cpus| == c.ncpu && |s.locks| == c.nlock && |s.ver| == |c.lockOf|
    && (forall p :: 0 <= p < c.nproc ==> s.procs[p].state == UNUSED && s.procs[p].lock == NONE && s.procs[p].pc == Dead && s.procs[p].seenCh == NONE)
    && (forall i :: 0 <= i < c.ncpu ==> s.cpus[i] == Cpu(NONE, SchedFree, Out, NONE))
    && (forall l :: 0 <= l < c.nlock ==> s.locks[l] == NONE)
  }

  ghost predicate IsRun(c: Config, run: seq<State>, who: seq<nat>, acts: seq<Action>) {
    && |run| == |acts| + 1 && |who| == |acts| && Init(c, run[0])
    && forall j :: 0 <= j < |acts| ==> Follows(c, run, who, acts, j)
  }

  /** Step j of the run is one of the machine's. */
  ghost predicate Follows(c: Config, run: seq<State>, who: seq<nat>, acts: seq<Action>, j: int)
    requires 0 <= j < |acts| && |run| == |acts| + 1 && |who| == |acts|
  { Next(c, run[j], who[j], acts[j], run[j + 1]) }
}
