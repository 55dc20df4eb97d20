/** What holds of the process tree in every run. */
module ProcRuns {
  import opened ProcTree

  datatype Step =
    | Alloc(p: int, n: int) | Fail(p: int, n: int) | Adopt(p: int, n: int) | Go(p: int, n: int)   // fork
    | Exit(p: int, status: int)
    | Reap(p: int, n: int)                                                                        // wait

  /** A process makes these steps only while it is active, the first and the last two only
      outside fork, the others only inside it. */
  ghost predicate Next(t: Table, s: Step, t': Table) {
    && Sized(t) && Slot(t, s.p) && t.state[s.p] == ACTIVE
    && match s
       case Alloc(p, n) => t.child[p] == NONE && Slot(t, n) && t.state[n] == UNUSED && t' == Allocate(t, p, n)
       case Fail(p, n) => t.child[p] == n && Slot(t, n) && t.parent[n] == NONE && t' == Abandon(t, p, n)
       case Adopt(p, n) => t.child[p] == n && Slot(t, n) && t' == t.(parent := t.parent[n := p])
       case Go(p, n) => t.child[p] == n && Slot(t, n) && t.parent[n] == p && t' == Launch(t, p, n)
       case Exit(p, status) => t.child[p] == NONE && p != INIT && t' == Exited(t, p, status)
       case Reap(p, n) => t.child[p] == NONE && Slot(t, n) && t.parent[n] == p && t.state[n] == ZOMBIE && t' == Reaped(t, n)
  }

  ghost predicate IsRun(run: seq<Table>, steps: seq<Step>) {
    && |run| == |steps| + 1 && Inv(run[0])
    && forall n :: 0 <= n < |steps| ==> Next(run[n], steps[n], run[n + 1])
  }

  lemma NextInv(t: Table, s: Step, t': Table)
    requires Inv(t) && Next(t, s, t')
    ensures Inv(t')
  {
    match s
    case Alloc(p, n) => AllocateInv(t, p, n);
    case Fail(p, n) => AbandonInv(t, p, n);
    case Adopt(p, n) => SetParentInv(t, p, n);
    case Go(p, n) => LaunchInv(t, p, n);
    case Exit(p, status) => ExitedInv(t, p, status);
    case Reap(p, n) => ReapedInv(t, n);
  }

  lemma {:induction false} RunInv(run: seq<Table>, steps: seq<Step>, n: nat)
    requires IsRun(run, steps) && n < |run|
    ensures Inv(run[n])
  {
    if n > 0 {
      var m := n - 1;
      RunInv(run, steps, m);
      assert Next(run[m], steps[m], run[m + 1]);
      NextInv(run[m], steps[m], run[m + 1]);
    }
  }

  /** In every state of every run the tree is sound: pids differ, a process has a living parent,
      descends from init, and is not its own ancestor. */
  lemma TreeSound(run: seq<Table>, steps: seq<Step>, n: nat, i: int, j: int, k: nat)
    requires IsRun(run, steps) && n < |run| && Slot(run[n], i) && Slot(run[n], j) && k > 0
    requires run[n].state[i] == ACTIVE || run[n].state[i] == ZOMBIE
    ensures Inv(run[n])
    ensures i != j && run[n].state[j] != UNUSED ==> run[n].pid[i] != run[n].pid[j]
    ensures i != INIT ==> Slot(run[n], run[n].parent[i]) && run[n].state[run[n].parent[i]] == ACTIVE
    ensures Up(run[n], i, k) != i
    ensures exists d: nat :: Up(run[n], i, d) == INIT
  {
    RunInv(run, steps, n);
    var t := run[n];
    assert SlotOk(t, i) && PidsOk(t, i, j);
    Acyclic(t, i, k);
    var d := FromInit(t, i);
  }

  /** Pids that wait has returned stay returned, and exit statuses stay. */
  lemma {:induction false} HistoryGrows(run: seq<Table>, steps: seq<Step>, m: nat, n: nat, q: int)
    requires IsRun(run, steps) && m <= n < |run|
    ensures q in run[m].reaped ==> q in run[n].reaped
    ensures q in run[m].exited ==> q in run[n].exited && run[n].exited[q] == run[m].exited[q]
    decreases n
  {
    if m < n {
      var k := n - 1;
      HistoryGrows(run, steps, m, k, q);
      RunInv(run, steps, k);
      assert Next(run[k], steps[k], run[k + 1]);
      assert SlotOk(run[k], steps[k].p);
    }
  }

  /** Step e is the exit of process q with this status. */
  ghost predicate Exits(run: seq<Table>, steps: seq<Step>, e: int, q: int, status: int) {
    && 0 <= e < |steps| && e < |run| && steps[e].Exit? && Sized(run[e]) && Slot(run[e], steps[e].p)
    && run[e].pid[steps[e].p] == q && steps[e].status == status
  }

  /** Step n is a wait that returns process q with this status. */
  ghost predicate Reaps(run: seq<Table>, steps: seq<Step>, n: int, q: int, status: int) {
    && 0 <= n < |steps| && n < |run| && steps[n].Reap? && Sized(run[n]) && Slot(run[n], steps[n].n)
    && run[n].pid[steps[n].n] == q && run[n].xstate[steps[n].n] == status
  }

  lemma {:induction false} ExitFound(run: seq<Table>, steps: seq<Step>, n: nat, q: int) returns (e: nat)
    requires IsRun(run, steps) && n < |run| && q in run[n].exited && q !in run[0].exited
    ensures e < n && Exits(run, steps, e, q, run[n].exited[q])
  {
    var k := n - 1;
    assert Next(run[k], steps[k], run[k + 1]);
    if q in run[k].exited {
      e := ExitFound(run, steps, k, q);
      HistoryGrows(run, steps, k, n, q);
    } else {
      e := k;
    }
  }

  /** A child is reaped by at most one wait, and wait has the status of an exit the child made
      before, in this run or before its first state. */
  lemma ReapedOnce(run: seq<Table>, steps: seq<Step>, n: nat, q: int, status: int)
    requires IsRun(run, steps) && Reaps(run, steps, n, q, status)
    ensures forall m, s :: m < n ==> !Reaps(run, steps, m, q, s)
    ensures (q in run[0].exited && run[0].exited[q] == status) || exists e :: e < n && Exits(run, steps, e, q, status)
    ensures forall e, s :: e < n && Exits(run, steps, e, q, s) ==> s == status
  {
    assert Next(run[n], steps[n], run[n + 1]);
    RunInv(run, steps, n);
    assert SlotOk(run[n], steps[n].n);
    forall m, s | m < n ensures !Reaps(run, steps, m, q, s) {
      if Reaps(run, steps, m, q, s) {
        assert Next(run[m], steps[m], run[m + 1]);
        assert run[m + 1].reaped[|run[m].reaped|] == q;
        HistoryGrows(run, steps, m + 1, n, q);
      }
    }
    forall e, s | e < n && Exits(run, steps, e, q, s) ensures s == status {
      assert Next(run[e], steps[e], run[e + 1]);
      HistoryGrows(run, steps, e + 1, n, q);
    }
    if q in run[0].exited {
      HistoryGrows(run, steps, 0, n, q);
    } else {
      var e := ExitFound(run, steps, n, q);
    }
  }
}
