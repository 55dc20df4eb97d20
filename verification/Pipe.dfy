/** The pipe of kernel/pipe.c.

    pi->lock is given up only inside sleep, so what a process does to a pipe is a
    series of segments: from acquire, or from waking up, to the next sleep or to the
    release.  Each method that changes the pipe is one segment, and an interleaving of
    readers and writers is any sequence of them.  A segment reports which wakeups it
    made. */
module Pipe {
  import opened Machine

  const PIPESIZE := 512

  /** How a segment ends: sleeping, at the end of the call, or with -1. */
  datatype End = Sleep | Done | Fail

  lemma Mod512(x: int)
    ensures (x % TWO32) % PIPESIZE == x % PIPESIZE
  {
    assert x == (x / TWO32) * TWO32 + x % TWO32;
    assert x == (x / TWO32 * 0x80_0000) * PIPESIZE + x % TWO32;
    AddMultiple(x % TWO32, x / TWO32 * 0x80_0000);
  }

  lemma AddMultiple(a: int, q: int)
    ensures (q * PIPESIZE + a) % PIPESIZE == a % PIPESIZE
  {}

  lemma Apart(a: int, b: int)
    requires a < b < a + PIPESIZE
    ensures a % PIPESIZE != b % PIPESIZE
  {}

  /** The 32-bit counters tell full and empty apart even after they wrap. */
  lemma Counters(got: nat, put: nat)
    requires got <= put <= got + PIPESIZE
    ensures put % TWO32 == (got % TWO32 + PIPESIZE) % TWO32 <==> put == got + PIPESIZE
    ensures put % TWO32 == got % TWO32 <==> put == got
  {}

  class Ring {
    const data: array<int>
    var nread: int
    var nwrite: int
    var readopen: bool
    var writeopen: bool
    ghost var put: seq<int>     // all bytes ever put into the ring
    ghost var got: seq<int>     // all bytes ever taken from it

    ghost predicate Valid()
      reads this, data
    {
      && data.Length == PIPESIZE
      && got <= put && |put| <= |got| + PIPESIZE
      && nwrite == |put| % TWO32 && nread == |got| % TWO32
      && forall k :: |got| <= k < |put| ==> data[k % PIPESIZE] == put[k]
    }

    constructor ()
      ensures Valid() && fresh(data) && put == [] && readopen && writeopen
    {
      data := new int[PIPESIZE];
      readopen, writeopen := true, true;
      nwrite, nread := 0, 0;
      put, got := [], [];
    }

    /** One byte into the ring. */
    method PutByte(ch: int)
      requires Valid() && |put| < |got| + PIPESIZE
      modifies `nwrite, `put, data
      ensures Valid() && put == old(put) + [ch]
    {
      Mod512(|put|);
      forall k | |got| <= k < |put| ensures k % PIPESIZE != |put| % PIPESIZE { Apart(k, |put|); }
      data[nwrite % PIPESIZE] := ch;
      nwrite := (nwrite + 1) % TWO32;
      put := put + [ch];
    }

    /** One byte out of it. */
    method TakeByte() returns (ch: int)
      requires Valid() && |got| < |put|
      modifies `nread, `got
      ensures Valid() && got == old(got) + [ch]
    {
      Mod512(|got|);
      ch := data[nread % PIPESIZE];
      nread := (nread + 1) % TWO32;
      got := got + [ch];
    }

    /** pipewrite from its i'th byte on.  pr->killed is seen set from loop turn killedFrom on;
        copyin fails for byte badFrom. */
    method Write(src: seq<int>, i0: nat, killedFrom: nat, badFrom: int) returns (i: nat, end: End, wokeReaders: bool)
      requires Valid() && i0 <= |src|
      modifies `nwrite, `put, data
      ensures Valid() && i0 <= i <= |src| && put == old(put) + src[i0..i]
      ensures i - i0 <= killedFrom && (i0 <= badFrom ==> i <= badFrom) && (!readopen ==> i == i0)
      ensures i == |src| ==> end == Done
      ensures i < |src| && (!readopen || killedFrom == i - i0) ==> end == Fail
      ensures i < |src| && readopen && killedFrom > i - i0 ==> if |put| == |got| + PIPESIZE then end == Sleep else end == Done && i == badFrom
      ensures wokeReaders <==> end != Fail
      // bytes were put, yet no reader was woken: exactly if the kill is seen between two bytes
      ensures i > i0 && !wokeReaders <==>
                && readopen && 0 < killedFrom < |src| - i0 && killedFrom <= PIPESIZE - (|old(put)| - |got|)
                && !(i0 <= badFrom < i0 + killedFrom)
    {
      i := i0;
      var turn := 0;
      while i < |src|
        invariant Valid() && i0 <= i <= |src| && turn == i - i0 && put == old(put) + src[i0..i]
        invariant (!readopen ==> i == i0) && turn <= killedFrom && !(i0 <= badFrom < i)
      {
        if !readopen || killedFrom <= turn { return i, Fail, false; }
        Counters(|got|, |put|);
        if nwrite == (nread + PIPESIZE) % TWO32 { return i, Sleep, true; }
        if i == badFrom { break; }
        PutByte(src[i]);
        i, turn := i + 1, turn + 1;
      }
      return i, Done, true;
    }

    /** piperead up to n bytes.  killed is pr->killed; copyout fails for byte badFrom, which is
        then taken but not counted. */
    method Read(n: nat, killed: bool, badFrom: int) returns (i: nat, dst: seq<int>, end: End, wokeWriters: bool)
      requires Valid()
      modifies `nread, `got
      ensures Valid() && got == old(got) + dst && |dst| <= n
      ensures i == if end == Done && 0 <= badFrom < |dst| then |dst| - 1 else |dst|
      ensures 0 <= badFrom < |dst| ==> badFrom == |dst| - 1
      ensures end == Sleep ==> put == old(got) && writeopen && !killed && dst == []
      ensures end == Fail ==> put == old(got) && writeopen && killed && dst == []
      ensures end == Done ==> |dst| == n || got == put || i == badFrom
      ensures end == Done && n > 0 && dst == [] ==> !writeopen && got == put
      ensures wokeWriters <==> end == Done
    {
      dst := [];
      Counters(|got|, |put|);
      if nread == nwrite && writeopen {
        if killed { return 0, dst, Fail, false; }
        return 0, dst, Sleep, false;
      }
      i := 0;
      while i < n
        invariant Valid() && got == old(got) + dst && |dst| == i <= n && (0 <= badFrom ==> i <= badFrom)
        invariant i == 0 ==> nread == old(nread) && got == old(got)
      {
        Counters(|got|, |put|);
        if nread == nwrite { break; }
        var ch := TakeByte();
        dst := dst + [ch];
        if i == badFrom { return i, dst, Done, true; }
        i := i + 1;
      }
      return i, dst, Done, true;
    }

    /** pipeclose: the end that goes wakes everybody who sleeps at the other. */
    method Close(writable: bool) returns (freed: bool, wokeReaders: bool, wokeWriters: bool)
      requires Valid()
      modifies `readopen, `writeopen
      ensures Valid() && writeopen == (old(writeopen) && !writable) && readopen == (old(readopen) && writable)
      ensures (wokeReaders <==> writable) && (wokeWriters <==> !writable)
      ensures freed <==> !readopen && !writeopen
    {
      wokeReaders, wokeWriters := false, false;
      if writable {
        writeopen := false;
        wokeReaders := true;
      } else {
        readopen := false;
        wokeWriters := true;
      }
      freed := !readopen && !writeopen;
    }
  }

  /** A sleeping reader is left behind: the writer put bytes and then failed, so its segment
      ended without wakeup(&pi->nread). */
  method LeftBehind() returns (p: Ring, slept: End, end: End, woke: bool)
    ensures p.Valid() && slept == Sleep && end == Fail && !woke && |p.got| < |p.put|
  {
    p := new Ring();
    var i, dst;
    i, dst, slept, woke := p.Read(1, false, -1);
    i, end, woke := p.Write([7, 8], 0, 1, -1);
  }
}
