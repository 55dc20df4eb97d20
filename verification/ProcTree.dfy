/** The process table and the parent tree of kernel/proc.c: allocproc, fork, reparent,
    exit, wait and freeproc.

    Parent links, and the change to ZOMBIE, are made while wait_lock is held.  Each
    method of ProcTable is what one process does in one such critical section, or to a slot
    that no other process looks at, so an interleaving is a sequence of calls. */
module ProcTree {

  const NONE := -1
  const INIT := 0               // initproc, the first slot allocated

  /** ACTIVE stands for RUNNABLE, RUNNING and SLEEPING. */
  datatype PState = UNUSED | USED | ACTIVE | ZOMBIE

  /** child is fork's local np while the process is in fork.  maker is the process that
      allocated the slot.  exited has the status of every process that ever exited, reaped
      the pids that wait has returned, in order. */
  datatype Table = Table(
    state: seq<PState>, pid: seq<int>, parent: seq<int>, xstate: seq<int>, nextpid: int,
    child: seq<int>, maker: seq<int>, exited: map<int, int>, reaped: seq<int>)

  ghost predicate Sized(t: Table) {
    && |t.state| == |t.pid| == |t.parent| == |t.xstate| == |t.child| == |t.maker| > INIT
    && 0 < t.nextpid
  }

  predicate Slot(t: Table, i: int) { 0 <= i < |t.state| }

  /** A living process older than slot i. */
  ghost predicate Older(t: Table, p: int, i: int)
    requires Sized(t) && Slot(t, i)
  { Slot(t, p) && t.state[p] == ACTIVE && t.pid[p] < t.pid[i] }

  ghost predicate SlotOk(t: Table, i: int)
    requires Sized(t) && Slot(t, i)
  {
    && (if t.state[i] == UNUSED then t.parent[i] == NONE && t.pid[i] == 0 else 0 < t.pid[i] < t.nextpid)
    && (i == INIT ==> t.state[i] == ACTIVE && t.parent[i] == NONE)
    && (i != INIT && (t.state[i] == ACTIVE || t.state[i] == ZOMBIE) ==> t.parent[i] != NONE)
    && (t.parent[i] != NONE ==> Older(t, t.parent[i], i))
    && (t.state[i] == USED ==> Older(t, t.maker[i], i) && t.child[t.maker[i]] == i
                               && (t.parent[i] == NONE || t.parent[i] == t.maker[i]))
    && (t.child[i] != NONE ==> t.state[i] == ACTIVE && Slot(t, t.child[i]) && t.state[t.child[i]] == USED && t.maker[t.child[i]] == i)
    && (t.state[i] == ZOMBIE <==> t.state[i] != UNUSED && t.pid[i] in t.exited)
    && (t.state[i] == ZOMBIE ==> t.exited[t.pid[i]] == t.xstate[i])
    && (t.state[i] != UNUSED ==> t.pid[i] !in t.reaped)
  }

  ghost predicate PidsOk(t: Table, i: int, j: int)
    requires Sized(t) && Slot(t, i) && Slot(t, j)
  { i != j && t.state[i] != UNUSED && t.state[j] != UNUSED ==> t.pid[i] != t.pid[j] }

  /** Every exited process is a zombie in the table, or was reaped, once. */
  ghost predicate HistoryOk(t: Table)
    requires Sized(t)
  {
    && (forall a, b :: 0 <= a < b < |t.reaped| ==> t.reaped[a] != t.reaped[b])
    && (forall a :: 0 <= a < |t.reaped| ==> t.reaped[a] in t.exited)
    && (forall q :: q in t.exited ==> 0 < q < t.nextpid && (q in t.reaped || exists i :: Slot(t, i) && t.state[i] == ZOMBIE && t.pid[i] == q))
  }

  ghost predicate Inv(t: Table) {
    && Sized(t)
    && (forall i :: 0 <= i < |t.state| ==> SlotOk(t, i))
    && (forall i, j :: 0 <= i < |t.state| && 0 <= j < |t.state| ==> PidsOk(t, i, j))
    && HistoryOk(t)
  }

  // ---------- the tree ----------

  /** k links up from i. */
  ghost function Up(t: Table, i: int, k: nat): int
    requires Sized(t)
    decreases k
  { if k == 0 || !Slot(t, i) then i else Up(t, t.parent[i], k - 1) }

  lemma {:induction false} UpOlder(t: Table, i: int, k: nat)
    requires Inv(t) && Slot(t, i) && t.state[i] != UNUSED && k > 0
    ensures Up(t, i, k) == NONE || (Slot(t, Up(t, i, k)) && t.pid[Up(t, i, k)] < t.pid[i])
    decreases k
  {
    assert SlotOk(t, i);
    var p := t.parent[i];
    if k == 1 {
      assert Up(t, p, 0) == p;
    } else if p != NONE {
      UpOlder(t, p, k - 1);
    }
  }

  /** Parent links have no cycle. */
  lemma Acyclic(t: Table, i: int, k: nat)
    requires Inv(t) && Slot(t, i) && t.state[i] != UNUSED && k > 0
    ensures Up(t, i, k) != i
  {
    UpOlder(t, i, k);
  }

  /** Every living or exited process descends from init. */
  lemma {:induction false} FromInit(t: Table, i: int) returns (k: nat)
    requires Inv(t) && Slot(t, i) && (t.state[i] == ACTIVE || t.state[i] == ZOMBIE)
    ensures Up(t, i, k) == INIT
    decreases t.pid[i]
  {
    if i == INIT {
      k := 0;
    } else {
      assert SlotOk(t, i) && SlotOk(t, t.parent[i]);
      k := FromInit(t, t.parent[i]);
      k := k + 1;
    }
  }

  // ---------- fork ----------

  /** allocproc: slot n gets the next pid. */
  function Allocate(t: Table, p: int, n: int): Table
    requires |t.state| == |t.pid| == |t.child| == |t.maker| && Slot(t, p) && Slot(t, n)
  {
    t.(state := t.state[n := USED], pid := t.pid[n := t.nextpid], nextpid := t.nextpid + 1,
       child := t.child[p := n], maker := t.maker[n := p])
  }

  lemma AllocateInv(t: Table, p: int, n: int)
    requires Inv(t) && Slot(t, p) && t.state[p] == ACTIVE && t.child[p] == NONE && Slot(t, n) && t.state[n] == UNUSED
    ensures Inv(Allocate(t, p, n))
  {
    var t' := Allocate(t, p, n);
    assert SlotOk(t, p) && SlotOk(t, n);
    forall q | q in t'.reaped ensures q != t.nextpid { assert q in t.exited; }
    forall i | 0 <= i < |t.state| ensures SlotOk(t', i) {
      assert SlotOk(t, i);
    }
    forall i, j | 0 <= i < |t.state| && 0 <= j < |t.state| ensures PidsOk(t', i, j) {
      assert PidsOk(t, i, j) && SlotOk(t, i) && SlotOk(t, j);
    }
    forall q | q in t'.exited && q !in t'.reaped ensures exists i :: Slot(t', i) && t'.state[i] == ZOMBIE && t'.pid[i] == q {
      var i :| Slot(t, i) && t.state[i] == ZOMBIE && t.pid[i] == q;
      assert t'.state[i] == ZOMBIE && t'.pid[i] == q;
    }
  }

  /** freeproc on a slot that fork could not complete. */
  function Abandon(t: Table, p: int, n: int): Table
    requires |t.state| == |t.pid| == |t.parent| == |t.xstate| == |t.child| && Slot(t, p) && Slot(t, n)
  { t.(state := t.state[n := UNUSED], pid := t.pid[n := 0], parent := t.parent[n := NONE], xstate := t.xstate[n := 0], child := t.child[p := NONE]) }

  lemma AbandonInv(t: Table, p: int, n: int)
    requires Inv(t) && Slot(t, p) && t.child[p] == n && Slot(t, n) && t.parent[n] == NONE
    ensures Inv(Abandon(t, p, n))
  {
    var t' := Abandon(t, p, n);
    assert SlotOk(t, p) && SlotOk(t, n);
    forall i | 0 <= i < |t.state| ensures SlotOk(t', i) {
      assert SlotOk(t, i);
      if t.parent[i] != NONE { assert SlotOk(t, t.parent[i]); }
    }
    forall i, j | 0 <= i < |t.state| && 0 <= j < |t.state| ensures PidsOk(t', i, j) { assert PidsOk(t, i, j); }
    forall q | q in t'.exited && q !in t'.reaped ensures exists i :: Slot(t', i) && t'.state[i] == ZOMBIE && t'.pid[i] == q {
      var i :| Slot(t, i) && t.state[i] == ZOMBIE && t.pid[i] == q;
      assert t'.state[i] == ZOMBIE && t'.pid[i] == q;
    }
  }

  lemma SetParentInv(t: Table, p: int, n: int)
    requires Inv(t) && Slot(t, p) && t.child[p] == n && n != NONE
    ensures SlotOk(t, p) && Inv(t.(parent := t.parent[n := p]))
  {
    assert SlotOk(t, p);
    var t' := t.(parent := t.parent[n := p]);
    assert SlotOk(t, n);
    forall i | 0 <= i < |t.state| ensures SlotOk(t', i) { assert SlotOk(t, i); }
    forall i, j | 0 <= i < |t.state| && 0 <= j < |t.state| ensures PidsOk(t', i, j) { assert PidsOk(t, i, j); }
    SameHistory(t, t');
  }

  /** The last step of fork. */
  function Launch(t: Table, p: int, n: int): Table
    requires Slot(t, n) && 0 <= p < |t.child|
  { t.(state := t.state[n := ACTIVE], child := t.child[p := NONE]) }

  lemma LaunchInv(t: Table, p: int, n: int)
    requires Inv(t) && Slot(t, p) && t.child[p] == n && n != NONE && Slot(t, n) && t.parent[n] == p
    ensures Inv(Launch(t, p, n))
  {
    assert SlotOk(t, p) && SlotOk(t, n);
    var t' := Launch(t, p, n);
    forall i | 0 <= i < |t.state| ensures SlotOk(t', i) {
      assert SlotOk(t, i);
      if t.parent[i] != NONE { assert SlotOk(t, t.parent[i]); }
    }
    forall i, j | 0 <= i < |t.state| && 0 <= j < |t.state| ensures PidsOk(t', i, j) { assert PidsOk(t, i, j); }
    SameHistory(t, t');
  }

  lemma SameHistory(t: Table, t': Table)
    requires Sized(t) && HistoryOk(t) && Sized(t') && |t'.state| == |t.state| && t'.pid == t.pid
    requires t'.exited == t.exited && t'.reaped == t.reaped && t'.nextpid == t.nextpid
    requires forall i :: 0 <= i < |t.state| && t.state[i] == ZOMBIE ==> t'.state[i] == ZOMBIE
    ensures HistoryOk(t')
  {
    forall q | q in t'.exited && q !in t'.reaped ensures exists i :: Slot(t', i) && t'.state[i] == ZOMBIE && t'.pid[i] == q {
      var i :| Slot(t, i) && t.state[i] == ZOMBIE && t.pid[i] == q;
      assert t'.state[i] == ZOMBIE && t'.pid[i] == q;
    }
  }

  // ---------- exit ----------

  /** p's children go to init, and p becomes a zombie. */
  function Exited(t: Table, p: int, status: int): Table
    requires |t.state| == |t.pid| == |t.parent| == |t.xstate| && Slot(t, p)
  {
    t.(parent := seq(|t.parent|, i requires 0 <= i < |t.parent| => if t.parent[i] == p then INIT else t.parent[i]),
       xstate := t.xstate[p := status], state := t.state[p := ZOMBIE], exited := t.exited[t.pid[p] := status])
  }

  lemma ExitedSlot(t: Table, p: int, status: int, i: int)
    requires Inv(t) && Slot(t, p) && t.state[p] == ACTIVE && t.child[p] == NONE && p != INIT && Slot(t, i)
    ensures Sized(Exited(t, p, status)) && SlotOk(Exited(t, p, status), i)
  {
    assert SlotOk(t, i) && SlotOk(t, p) && SlotOk(t, INIT) && PidsOk(t, i, p);
    InitOldest(t, p);
    if t.parent[i] == p { assert Older(t, p, i); }
    if t.state[i] == USED { assert SlotOk(t, t.maker[i]); }
  }

  /** init is older than every other living process. */
  lemma {:induction false} InitOldest(t: Table, i: int)
    requires Inv(t) && Slot(t, i) && t.state[i] == ACTIVE
    ensures t.pid[INIT] <= t.pid[i]
    decreases t.pid[i]
  {
    assert SlotOk(t, i);
    if i != INIT {
      assert SlotOk(t, t.parent[i]);
      InitOldest(t, t.parent[i]);
    }
  }

  lemma ExitedInv(t: Table, p: int, status: int)
    requires Inv(t) && Slot(t, p) && t.state[p] == ACTIVE && t.child[p] == NONE && p != INIT
    ensures Inv(Exited(t, p, status))
  {
    var t' := Exited(t, p, status);
    assert SlotOk(t, p);
    ExitedSlot(t, p, status, p);
    forall i | 0 <= i < |t.state| ensures SlotOk(t', i) { ExitedSlot(t, p, status, i); }
    forall i, j | 0 <= i < |t.state| && 0 <= j < |t.state| ensures PidsOk(t', i, j) { assert PidsOk(t, i, j); }
    forall q | q in t'.exited && q !in t'.reaped ensures exists i :: Slot(t', i) && t'.state[i] == ZOMBIE && t'.pid[i] == q {
      if q == t.pid[p] {
        assert t'.state[p] == ZOMBIE && t'.pid[p] == q;
      } else {
        var i :| Slot(t, i) && t.state[i] == ZOMBIE && t.pid[i] == q;
        assert t'.state[i] == ZOMBIE && t'.pid[i] == q;
      }
    }
  }

  // ---------- wait ----------

  /** freeproc on a zombie that wait has found. */
  function Reaped(t: Table, n: int): Table
    requires |t.state| == |t.pid| == |t.parent| == |t.xstate| && Slot(t, n)
  {
    t.(state := t.state[n := UNUSED], pid := t.pid[n := 0], parent := t.parent[n := NONE], xstate := t.xstate[n := 0],
       reaped := t.reaped + [t.pid[n]])
  }

  lemma ReapedInv(t: Table, n: int)
    requires Inv(t) && Slot(t, n) && t.state[n] == ZOMBIE
    ensures t.pid[n] in t.exited && t.exited[t.pid[n]] == t.xstate[n] && t.pid[n] !in t.reaped && Inv(Reaped(t, n))
  {
    assert SlotOk(t, n);
    var t' := Reaped(t, n);
    forall i | 0 <= i < |t.state| ensures SlotOk(t', i) {
      assert SlotOk(t, i) && PidsOk(t, i, n);
    }
    forall i, j | 0 <= i < |t.state| && 0 <= j < |t.state| ensures PidsOk(t', i, j) { assert PidsOk(t, i, j); }
    forall q | q in t'.exited && q !in t'.reaped ensures exists i :: Slot(t', i) && t'.state[i] == ZOMBIE && t'.pid[i] == q {
      var i :| Slot(t, i) && t.state[i] == ZOMBIE && t.pid[i] == q;
      assert t'.reaped[|t.reaped|] == t.pid[n];
      assert t'.state[i] == ZOMBIE && t'.pid[i] == q;
    }
  }

  // ---------- the code ----------

  /** What one pass of wait's loop comes to. */
  datatype WaitResult = Child(pid: int, status: int) | Minus1 | Asleep

  ghost predicate HasChild(t: Table, p: int) { exists i :: 0 <= i < |t.parent| && t.parent[i] == p }

  ghost predicate HasZombie(t: Table, p: int)
    requires |t.state| == |t.parent|
  { exists i :: 0 <= i < |t.parent| && t.parent[i] == p && t.state[i] == ZOMBIE }

  class ProcTable {
    var state: seq<PState>
    var pid: seq<int>
    var parent: seq<int>
    var xstate: seq<int>
    var nextpid: int
    ghost var child: seq<int>
    ghost var maker: seq<int>
    ghost var exited: map<int, int>
    ghost var reaped: seq<int>

    ghost function T(): Table
      reads this
    { Table(state, pid, parent, xstate, nextpid, child, maker, exited, reaped) }

    ghost predicate Valid()
      reads this
    { Inv(T()) }

    /** userinit: only init, in the first slot, with pid 1. */
    constructor (nproc: int)
      requires nproc > 0
      ensures Valid() && |state| == nproc && pid[INIT] == 1 && reaped == []
    {
      state := seq(nproc, i => if i == INIT then ACTIVE else UNUSED);
      pid := seq(nproc, i => if i == INIT then 1 else 0);
      parent, xstate := seq(nproc, _ => NONE), seq(nproc, _ => 0);
      nextpid := 2;
      child, maker, exited, reaped := seq(nproc, _ => NONE), seq(nproc, _ => NONE), map[], [];
    }

    /** allocproc, called by fork in process p: the first unused slot, or NONE. */
    method Allocproc(ghost p: int) returns (n: int)
      requires Valid() && Slot(T(), p) && state[p] == ACTIVE && child[p] == NONE
      modifies this
      ensures Valid()
      ensures n == NONE ==> T() == old(T()) && forall i :: 0 <= i < |state| ==> state[i] != UNUSED
      ensures n != NONE ==> Slot(old(T()), n) && old(state)[n] == UNUSED && T() == Allocate(old(T()), p, n)
      ensures n != NONE ==> state == old(state)[n := USED] && pid == old(pid)[n := old(nextpid)] && parent == old(parent) && nextpid == old(nextpid) + 1
      ensures n != NONE ==> forall i :: 0 <= i < n ==> old(state)[i] != UNUSED
    {
      n := 0;
      while n < |state|
        invariant 0 <= n <= |state| && T() == old(T()) && forall i :: 0 <= i < n ==> state[i] != UNUSED
      {
        if state[n] == UNUSED {
          AllocateInv(T(), p, n);
          pid, nextpid := pid[n := nextpid], nextpid + 1;
          state := state[n := USED];
          child, maker := child[p := n], maker[n := p];
          assert T() == Allocate(old(T()), p, n);
          return;
        }
        n := n + 1;
      }
      return NONE;
    }

    /** The first segment of fork.  memory says whether every allocation succeeds. */
    method ForkAlloc(ghost p: int, memory: bool) returns (n: int, newpid: int)
      requires Valid() && Slot(T(), p) && state[p] == ACTIVE && child[p] == NONE
      modifies this
      ensures Valid()
      ensures n == NONE ==> newpid == -1 && child == old(child) && parent == old(parent) && exited == old(exited) && reaped == old(reaped)
      ensures n == NONE ==> state == old(state) && pid == old(pid)
      ensures n != NONE ==> Slot(old(T()), n) && T() == Allocate(old(T()), p, n) && newpid == old(nextpid)
    {
      n := Allocproc(p);
      if n == NONE { return NONE, -1; }
      if !memory {
        assert SlotOk(old(T()), n);
        AbandonInv(T(), p, n);
        pid, parent, xstate := pid[n := 0], parent[n := NONE], xstate[n := 0];
        state := state[n := UNUSED];
        child := child[p := NONE];
        assert T() == Abandon(Allocate(old(T()), p, n), p, n);
        return NONE, -1;
      }
      newpid := pid[n];
    }

    /** fork's second segment, under wait_lock. */
    method ForkParent(p: int, n: int)
      requires Valid() && Slot(T(), p) && child[p] == n != NONE
      modifies `parent
      ensures Valid() && Slot(T(), n) && parent == old(parent)[n := p]
    {
      SetParentInv(T(), p, n);
      parent := parent[n := p];
      assert T() == old(T()).(parent := parent);
    }

    /** fork's last segment. */
    method ForkLaunch(ghost p: int, n: int)
      requires Valid() && Slot(T(), p) && child[p] == n && Slot(T(), n) && parent[n] == p
      modifies `state, `child
      ensures Valid() && T() == Launch(old(T()), p, n) && |old(state)| > n && state == old(state)[n := ACTIVE]
    {
      LaunchInv(T(), p, n);
      state := state[n := ACTIVE];
      child := child[p := NONE];
      assert T() == Launch(old(T()), p, n);
    }

    method Reparent(p: int)
      modifies `parent
      ensures parent == seq(|old(parent)|, i requires 0 <= i < |old(parent)| => if old(parent)[i] == p then INIT else old(parent)[i])
    {
      var pp := 0;
      while pp < |parent|
        invariant 0 <= pp <= |parent| == |old(parent)|
        invariant forall i :: 0 <= i < |parent| ==> parent[i] == if i < pp && old(parent)[i] == p then INIT else old(parent)[i]
      {
        if parent[pp] == p { parent := parent[pp := INIT]; }
        pp := pp + 1;
      }
    }

    /** exit's critical section; init does not exit. */
    method Exit(p: int, status: int)
      requires Valid() && Slot(T(), p) && state[p] == ACTIVE && child[p] == NONE && p != INIT
      modifies this
      ensures Valid() && T() == Exited(old(T()), p, status)
      ensures forall i :: 0 <= i < |parent| ==> parent[i] != p
      ensures |old(state)| == |old(xstate)| > p && state == old(state)[p := ZOMBIE] && xstate == old(xstate)[p := status] && pid == old(pid)
    {
      ExitedInv(T(), p, status);
      Reparent(p);
      xstate := xstate[p := status];
      state := state[p := ZOMBIE];
      exited := exited[pid[p] := status];
      assert T() == Exited(old(T()), p, status);
    }

    /** One pass of wait in process p.  copyOk says whether copyout of the status succeeds. */
    method Wait(p: int, killed: bool, copyOk: bool) returns (r: WaitResult, ghost n: int)
      requires Valid() && Slot(T(), p) && state[p] == ACTIVE
      modifies this
      ensures Valid()
      ensures r.Child? ==>
                && Slot(old(T()), n) && old(parent)[n] == p && old(state)[n] == ZOMBIE && T() == Reaped(old(T()), n)
                && r.pid == old(pid)[n] && r.pid in old(exited) && r.status == old(exited)[r.pid]
                && r.pid !in old(reaped) && reaped == old(reaped) + [r.pid] && state == old(state)[n := UNUSED]
      ensures !r.Child? ==> T() == old(T())
      ensures r.Child? <==> copyOk && HasZombie(old(T()), p)
      ensures r.Asleep? <==> !killed && !HasZombie(old(T()), p) && HasChild(old(T()), p)
    {
      var havekids := false;
      var np := 0;
      while np < |state|
        invariant 0 <= np <= |state| && T() == old(T())
        invariant havekids <==> exists i :: 0 <= i < np && parent[i] == p
        invariant forall i :: 0 <= i < np && parent[i] == p ==> state[i] != ZOMBIE
      {
        if parent[np] == p {
          havekids := true;
          if state[np] == ZOMBIE {
            if !copyOk { return Minus1, np; }
            r, n := Child(pid[np], xstate[np]), np;
            assert HasZombie(old(T()), p);
            ReapedInv(T(), np);
            Freeproc(np);
            return;
          }
        }
        np := np + 1;
      }
      n := NONE;
      if !havekids || killed { return Minus1, n; }
      return Asleep, n;
    }

    method Freeproc(n: int)
      requires |state| == |pid| == |parent| == |xstate| && Slot(T(), n)
      modifies this
      ensures T() == Reaped(old(T()), n)
    {
      reaped := reaped + [pid[n]];
      pid := pid[n := 0];
      parent := parent[n := NONE];
      xstate := xstate[n := 0];
      state := state[n := UNUSED];
    }
  }
}
