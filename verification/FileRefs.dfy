/** Who holds references to open files: descriptors and mapped regions of all processes. */
module FileRefs {
  import opened Vmas

  const NOFILE := 16

  datatype File = File(ref: int, isInode: bool, ino: int, readable: bool, writable: bool)

  datatype Proc = Proc(ofile: seq<int>, space: Space)

  datatype Holder = Fd(p: int, i: int) | Vm(p: int, i: int)

  /** held[f] is the set of slots that refer to file f. */
  datatype Sys = Sys(procs: seq<Proc>, files: seq<File>, inodes: seq<seq<int>>, held: seq<set<Holder>>)

  ghost predicate Sized(s: Sys) {
    && |s.held| == |s.files|
    && forall p :: 0 <= p < |s.procs| ==> |s.procs[p].ofile| == NOFILE && |s.procs[p].space.vmas| == NVMA
  }

  ghost predicate Slot(s: Sys, h: Holder) {
    match h
    case Fd(p, i) => 0 <= p < |s.procs| && 0 <= i < NOFILE
    case Vm(p, i) => 0 <= p < |s.procs| && 0 <= i < NVMA
  }

  /** The file that slot h refers to. */
  ghost function At(s: Sys, h: Holder): int
    requires Sized(s) && Slot(s, h)
  {
    match h
    case Fd(p, i) => s.procs[p].ofile[i]
    case Vm(p, i) => if s.procs[p].space.vmas[i].used then s.procs[p].space.vmas[i].file else NONE
  }

  ghost predicate IsFile(s: Sys, f: int) { 0 <= f < |s.files| }

  ghost predicate SlotOk(s: Sys, h: Holder)
    requires Sized(s) && Slot(s, h)
  { At(s, h) == NONE || (IsFile(s, At(s, h)) && h in s.held[At(s, h)]) }

  ghost predicate HeldOk(s: Sys, f: int, h: Holder)
    requires Sized(s) && IsFile(s, f)
  { h in s.held[f] ==> Slot(s, h) && At(s, h) == f }

  ghost predicate FileOk(s: Sys, f: int)
    requires Sized(s) && IsFile(s, f)
  { s.files[f].ref == |s.held[f]| && (s.files[f].ref > 0 ==> 0 <= s.files[f].ino < |s.inodes|) }

  /** A file's count is the number of slots that refer to it. */
  ghost predicate RefsOk(s: Sys) {
    && Sized(s)
    && (forall h :: Slot(s, h) ==> SlotOk(s, h))
    && (forall f, h :: 0 <= f < |s.files| && h in s.held[f] ==> HeldOk(s, f, h))
    && (forall f :: 0 <= f < |s.files| ==> FileOk(s, f))
  }

  /** A file that a slot refers to is open. */
  lemma Open(s: Sys, h: Holder)
    requires RefsOk(s) && Slot(s, h) && At(s, h) != NONE
    ensures IsFile(s, At(s, h)) && s.files[At(s, h)].ref >= 1 && 0 <= s.files[At(s, h)].ino < |s.inodes|
  {
    assert SlotOk(s, h) && FileOk(s, At(s, h));
  }

  /** The count is the number of descriptors and regions that refer to the file. */
  lemma RefIsSlots(s: Sys, f: int, slots: set<Holder>)
    requires RefsOk(s) && IsFile(s, f) && forall h :: h in slots <==> Slot(s, h) && At(s, h) == f
    ensures s.files[f].ref == |slots|
  {
    forall h ensures h in slots <==> h in s.held[f] {
      if h in slots { assert SlotOk(s, h); }
      if h in s.held[f] { assert HeldOk(s, f, h); }
    }
    assert slots == s.held[f];
    assert FileOk(s, f);
  }

  // ---------- one slot changes ----------

  /** All slots but h are as they were. */
  ghost predicate OnlySlot(s: Sys, s': Sys, h: Holder) {
    && Sized(s) && Sized(s') && |s'.procs| == |s.procs|
    && (forall g :: Slot(s, g) && g != h ==> At(s', g) == At(s, g))
  }

  /** Slot h now refers to f, and f's count has gone up. */
  ghost predicate Attached(s: Sys, s': Sys, h: Holder, f: int) {
    && OnlySlot(s, s', h) && Slot(s, h) && At(s, h) == NONE && At(s', h) == f && IsFile(s, f)
    && s'.held == s.held[f := s.held[f] + {h}]
    && s'.inodes == s.inodes
    && |s'.files| == |s.files| && s'.files[f].ref == s.files[f].ref + 1 && 0 <= s'.files[f].ino < |s.inodes|
    && forall g :: 0 <= g < |s.files| && g != f ==> s'.files[g] == s.files[g]
  }

  lemma AttachedOk(s: Sys, s': Sys, h: Holder, f: int)
    requires RefsOk(s) && Attached(s, s', h, f)
    ensures RefsOk(s')
  {
    assert h in s.held[f] ==> HeldOk(s, f, h);
    assert |s.held[f] + {h}| == |s.held[f]| + 1;
    forall g | Slot(s', g) ensures SlotOk(s', g) { assert SlotOk(s, g); }
    forall e, g | 0 <= e < |s'.files| && g in s'.held[e] ensures HeldOk(s', e, g) {
      assert g in s.held[e] ==> HeldOk(s, e, g);
    }
    forall e | 0 <= e < |s'.files| ensures FileOk(s', e) { assert FileOk(s, e); }
  }

  /** Slot h no longer refers to f, and f's count has gone down. */
  ghost predicate Detached(s: Sys, s': Sys, h: Holder, f: int) {
    && OnlySlot(s, s', h) && Slot(s, h) && At(s, h) == f && At(s', h) == NONE && IsFile(s, f)
    && s'.held == s.held[f := s.held[f] - {h}]
    && |s'.inodes| == |s.inodes|
    && s'.files == s.files[f := s.files[f].(ref := s.files[f].ref - 1)]
  }

  lemma DetachedOk(s: Sys, s': Sys, h: Holder, f: int)
    requires RefsOk(s) && Detached(s, s', h, f)
    ensures RefsOk(s')
  {
    assert SlotOk(s, h);
    assert |s.held[f] - {h}| == |s.held[f]| - 1;
    forall g | Slot(s', g) ensures SlotOk(s', g) { assert SlotOk(s, g); }
    forall e, g | 0 <= e < |s'.files| && g in s'.held[e] ensures HeldOk(s', e, g) { assert HeldOk(s, e, g); }
    forall e | 0 <= e < |s'.files| ensures FileOk(s', e) { assert FileOk(s, e); }
  }

  /** No slot changes. */
  lemma SameOk(s: Sys, s': Sys)
    requires RefsOk(s) && Sized(s') && |s'.procs| == |s.procs| && s'.files == s.files && s'.held == s.held && |s'.inodes| == |s.inodes|
    requires forall h :: Slot(s, h) ==> At(s', h) == At(s, h)
    ensures RefsOk(s')
  {
    forall g | Slot(s', g) ensures SlotOk(s', g) { assert SlotOk(s, g); }
    forall e, g | 0 <= e < |s'.files| && g in s'.held[e] ensures HeldOk(s', e, g) { assert HeldOk(s, e, g); }
    forall e | 0 <= e < |s'.files| ensures FileOk(s', e) { assert FileOk(s, e); }
  }

  // ---------- the changes that system calls make ----------

  function SetFd(s: Sys, p: int, i: int, f: int): Sys
    requires 0 <= p < |s.procs| && 0 <= i < |s.procs[p].ofile|
  { s.(procs := s.procs[p := s.procs[p].(ofile := s.procs[p].ofile[i := f])]) }

  function SetSpace(s: Sys, p: int, a: Space): Sys
    requires 0 <= p < |s.procs|
  { s.(procs := s.procs[p := s.procs[p].(space := a)]) }

  function PutPt(procs: seq<Proc>, p: int, pt: map<int, Page>): seq<Proc>
    requires 0 <= p < |procs|
  { procs[p := procs[p].(space := procs[p].space.(pt := pt))] }

  function PutVma(procs: seq<Proc>, p: int, i: int, v: Vma): seq<Proc>
    requires 0 <= p < |procs| && 0 <= i < |procs[p].space.vmas|
  { procs[p := procs[p].(space := procs[p].space.(vmas := procs[p].space.vmas[i := v]))] }

  lemma PutSame(procs: seq<Proc>, p: int, pt: map<int, Page>)
    requires 0 <= p < |procs| && pt == procs[p].space.pt
    ensures PutPt(procs, p, pt) == procs
  {
    assert procs[p].space.(pt := pt) == procs[p].space;
    assert procs[p].(space := procs[p].space) == procs[p];
  }

  /** One reference more, held by h. */
  function Up(s: Sys, f: int, h: Holder): Sys
    requires 0 <= f < |s.files| == |s.held|
  { s.(files := s.files[f := s.files[f].(ref := s.files[f].ref + 1)], held := s.held[f := s.held[f] + {h}]) }

  function Down(s: Sys, f: int, h: Holder): Sys
    requires 0 <= f < |s.files| == |s.held|
  { s.(files := s.files[f := s.files[f].(ref := s.files[f].ref - 1)], held := s.held[f := s.held[f] - {h}]) }

  ghost predicate Inv(s: Sys) {
    RefsOk(s) && forall p :: 0 <= p < |s.procs| ==> SpaceOk(s.procs[p].space)
  }

  lemma GainFd(s: Sys, p: int, i: int, f: int)
    requires Inv(s) && 0 <= p < |s.procs| && 0 <= i < NOFILE && s.procs[p].ofile[i] == NONE
    requires IsFile(s, f) && 0 <= s.files[f].ino < |s.inodes|
    ensures Inv(Up(SetFd(s, p, i, f), f, Fd(p, i)))
  {
    var s' := Up(SetFd(s, p, i, f), f, Fd(p, i));
    assert Attached(s, s', Fd(p, i), f);
    AttachedOk(s, s', Fd(p, i), f);
  }

  /** A file that no slot refers to is opened, in descriptor i of process p. */
  lemma OpenFd(s: Sys, p: int, i: int, f: int, g: File)
    requires Inv(s) && 0 <= p < |s.procs| && 0 <= i < NOFILE && s.procs[p].ofile[i] == NONE
    requires IsFile(s, f) && s.files[f].ref == 0 && g.ref == 1 && 0 <= g.ino < |s.inodes|
    ensures Inv(SetFd(s, p, i, f).(files := s.files[f := g], held := s.held[f := s.held[f] + {Fd(p, i)}]))
  {
    var s' := SetFd(s, p, i, f).(files := s.files[f := g], held := s.held[f := s.held[f] + {Fd(p, i)}]);
    assert Attached(s, s', Fd(p, i), f);
    AttachedOk(s, s', Fd(p, i), f);
  }

  lemma LoseFd(s: Sys, p: int, i: int)
    requires Inv(s) && 0 <= p < |s.procs| && 0 <= i < NOFILE && s.procs[p].ofile[i] != NONE
    ensures var f := s.procs[p].ofile[i];
            IsFile(s, f) && s.files[f].ref >= 1 && Inv(Down(SetFd(s, p, i, NONE), f, Fd(p, i)))
  {
    Open(s, Fd(p, i));
    var f := s.procs[p].ofile[i];
    var s' := Down(SetFd(s, p, i, NONE), f, Fd(p, i));
    assert Detached(s, s', Fd(p, i), f);
    DetachedOk(s, s', Fd(p, i), f);
  }

  /** Region slot i of process p, unused so far, is filled in. */
  lemma GainVma(s: Sys, p: int, i: int, v: Vma)
    requires Inv(s) && 0 <= p < |s.procs| && 0 <= i < NVMA && !s.procs[p].space.vmas[i].used && v.used
    requires IsFile(s, v.file) && 0 <= s.files[v.file].ino < |s.inodes|
    requires SpaceOk(s.procs[p].space.(vmas := s.procs[p].space.vmas[i := v]))
    ensures Inv(Up(SetSpace(s, p, s.procs[p].space.(vmas := s.procs[p].space.vmas[i := v])), v.file, Vm(p, i)))
  {
    var s' := Up(SetSpace(s, p, s.procs[p].space.(vmas := s.procs[p].space.vmas[i := v])), v.file, Vm(p, i));
    assert Attached(s, s', Vm(p, i), v.file);
    AttachedOk(s, s', Vm(p, i), v.file);
  }

  /** Region i goes, with its pages; the file may have been written. */
  lemma LoseVma(s: Sys, p: int, i: int, a: Space, inodes: seq<seq<int>>)
    requires Inv(s) && 0 <= p < |s.procs| && 0 <= i < NVMA && s.procs[p].space.vmas[i].used
    requires a.vmas == s.procs[p].space.vmas[i := UNUSED] && SpaceOk(a) && |inodes| == |s.inodes|
    ensures var f := s.procs[p].space.vmas[i].file;
            IsFile(s, f) && s.files[f].ref >= 1 && Inv(Down(SetSpace(s, p, a), f, Vm(p, i)).(inodes := inodes))
  {
    var f := s.procs[p].space.vmas[i].file;
    assert VmaOk(s.procs[p].space.vmas[i]);
    Open(s, Vm(p, i));
    var s' := Down(SetSpace(s, p, a), f, Vm(p, i)).(inodes := inodes);
    assert Detached(s, s', Vm(p, i), f);
    DetachedOk(s, s', Vm(p, i), f);
  }

  /** The space changes, but no region comes, goes or changes its file. */
  lemma KeepVmas(s: Sys, p: int, a: Space, inodes: seq<seq<int>>)
    requires Inv(s) && 0 <= p < |s.procs| && SpaceOk(a) && |inodes| == |s.inodes|
    requires forall i :: 0 <= i < NVMA ==> a.vmas[i].used == s.procs[p].space.vmas[i].used && a.vmas[i].file == s.procs[p].space.vmas[i].file
    ensures Inv(SetSpace(s, p, a).(inodes := inodes))
  {
    SameOk(s, SetSpace(s, p, a).(inodes := inodes));
  }
}
