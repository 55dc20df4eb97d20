/** The memory of user/umalloc.c as a value: unit u of sizeof(Header) bytes may hold a
    header, whose fields are ptr[u] and size[u].  Unit 0 is the static header base, which
    lies below all memory from sbrk. */
module HeapBlocks {

  const BASE := 0

  /** own[u] is the header of the block that unit u lies in, NONE for memory that did not
      come from sbrk; isFree[u] says that u is a header on the free list. */
  datatype Heap = Heap(ptr: seq<int>, size: seq<int>, own: seq<int>, isFree: seq<bool>)

  const NONE := -1

  predicate Sized(h: Heap) { |h.ptr| == |h.size| == |h.own| == |h.isFree| > 0 }

  predicate Unit(h: Heap, u: int) { 0 <= u < |h.own| }

  ghost predicate Head(h: Heap, u: int) { Unit(h, u) && h.own[u] == u }

  /** The blocks: each unit from sbrk is in exactly one, base is a block of its own. */
  ghost predicate UnitOk(h: Heap, u: int)
    requires Sized(h) && Unit(h, u)
  {
    && (h.isFree[u] ==> h.own[u] == u)
    && (u == BASE ==> h.own[u] == BASE && h.isFree[u] && h.size[u] == 0)
    && (u != BASE && h.own[u] == u ==> 0 < h.size[u] && u + h.size[u] <= |h.own|)
    && (u != BASE && h.own[u] != NONE ==>
          BASE < h.own[u] <= u && h.own[h.own[u]] == h.own[u] && u < h.own[u] + h.size[h.own[u]])
  }

  ghost predicate InBlock(h: Heap, u: int, v: int)
    requires Sized(h) && Unit(h, u) && Unit(h, v)
  {
    h.own[u] == u && u <= v < u + h.size[u] ==> h.own[v] == u
  }

  ghost predicate Blocks(h: Heap) {
    && Sized(h)
    && (forall u :: 0 <= u < |h.own| ==> UnitOk(h, u))
    && (forall u, v :: 0 <= u < |h.own| && 0 <= v < |h.own| ==> InBlock(h, u, v))
  }

  /** w comes after u and before v on the way up, starting again at the bottom. */
  predicate Between(u: int, v: int, w: int) { if u < v then u < w < v else w > u || w < v }

  /** u's successor is the next free header in address order. */
  ghost predicate LinkOk(h: Heap, u: int)
    requires Sized(h) && Unit(h, u)
  {
    h.isFree[u] ==>
      && Unit(h, h.ptr[u]) && h.isFree[h.ptr[u]]
      && forall w :: 0 <= w < |h.own| && h.isFree[w] ==> !Between(u, h.ptr[u], w)
  }

  ghost predicate Listed(h: Heap) {
    Blocks(h) && forall u :: 0 <= u < |h.own| ==> LinkOk(h, u)
  }

  /** No free block ends where the next one starts. */
  ghost predicate Apart(h: Heap, u: int)
    requires Sized(h) && Unit(h, u)
  {
    h.isFree[u] && Unit(h, u + h.size[u]) && u != BASE ==> !h.isFree[u + h.size[u]]
  }

  ghost predicate Wf(h: Heap) {
    Listed(h) && forall u :: 0 <= u < |h.own| ==> Apart(h, u)
  }

  ghost predicate UnitFree(h: Heap, u: int)
    requires Sized(h) && Unit(h, u)
  { Unit(h, h.own[u]) && h.isFree[h.own[u]] }

  ghost predicate Live(h: Heap, u: int)
    requires Sized(h)
  { Head(h, u) && !h.isFree[u] }

  // ---------- insertion and joining ----------

  /** b goes on the list behind p. */
  function Insert(h: Heap, p: int, b: int): Heap
    requires Sized(h) && Unit(h, p) && Unit(h, b)
  { h.(ptr := h.ptr[b := h.ptr[p]][p := b], isFree := h.isFree[b := true]) }

  ghost predicate Slot(h: Heap, p: int, b: int)
    requires Sized(h)
  { Unit(h, p) && h.isFree[p] && Live(h, b) && b != BASE && Between(p, h.ptr[p], b) && (p < b < h.ptr[p] || h.ptr[p] <= p < b) }

  lemma InsertLink(h: Heap, p: int, b: int, u: int)
    requires Listed(h) && Slot(h, p, b) && Unit(h, u)
    ensures LinkOk(Insert(h, p, b), u)
  {
    assert LinkOk(h, u) && LinkOk(h, p);
    assert UnitOk(h, BASE);
  }

  lemma InsertListed(h: Heap, p: int, b: int)
    requires Listed(h) && Slot(h, p, b)
    ensures Listed(Insert(h, p, b))
  {
    var h' := Insert(h, p, b);
    forall u | 0 <= u < |h'.own| ensures LinkOk(h', u) { InsertLink(h, p, b, u); }
    forall u | 0 <= u < |h'.own| ensures UnitOk(h', u) { assert UnitOk(h, u); }
    forall u, v | 0 <= u < |h'.own| && 0 <= v < |h'.own| ensures InBlock(h', u, v) { assert InBlock(h, u, v); }
  }

  /** Block b, which starts where a ends and follows it on the list, becomes part of a. */
  function Joined(h: Heap, a: int, b: int): Heap
    requires Sized(h) && Unit(h, a) && Unit(h, b)
  {
    h.(ptr := h.ptr[a := h.ptr[b]], size := h.size[a := h.size[a] + h.size[b]],
       own := seq(|h.own|, u requires 0 <= u < |h.own| => if h.own[u] == b then a else h.own[u]),
       isFree := h.isFree[b := false])
  }

  ghost predicate Adjacent(h: Heap, a: int, b: int)
    requires Sized(h)
  {
    Unit(h, a) && Unit(h, b) && h.isFree[a] && h.isFree[b] && BASE < a && h.ptr[a] == b && a + h.size[a] == b
  }

  lemma JoinedUnit(h: Heap, a: int, b: int, u: int)
    requires Blocks(h) && Adjacent(h, a, b) && Unit(h, u)
    ensures Sized(Joined(h, a, b)) && UnitOk(Joined(h, a, b), u)
  {
    assert UnitOk(h, u) && UnitOk(h, a) && UnitOk(h, b) && UnitOk(h, BASE);
  }

  lemma JoinedIn(h: Heap, a: int, b: int, u: int, v: int)
    requires Blocks(h) && Adjacent(h, a, b) && Unit(h, u) && Unit(h, v)
    ensures InBlock(Joined(h, a, b), u, v)
  {
    assert InBlock(h, u, v) && InBlock(h, a, v) && InBlock(h, b, v) && UnitOk(h, u) && UnitOk(h, v) && UnitOk(h, a) && UnitOk(h, b);
  }

  lemma JoinedLink(h: Heap, a: int, b: int, u: int)
    requires Listed(h) && Adjacent(h, a, b) && Unit(h, u)
    ensures LinkOk(Joined(h, a, b), u)
  {
    assert LinkOk(h, u) && LinkOk(h, a) && LinkOk(h, b) && UnitOk(h, BASE) && UnitOk(h, a);
  }

  lemma JoinedListed(h: Heap, a: int, b: int)
    requires Listed(h) && Adjacent(h, a, b)
    ensures Listed(Joined(h, a, b))
  {
    var h' := Joined(h, a, b);
    forall u | 0 <= u < |h'.own| ensures UnitOk(h', u) { JoinedUnit(h, a, b, u); }
    forall u, v | 0 <= u < |h'.own| && 0 <= v < |h'.own| ensures InBlock(h', u, v) { JoinedIn(h, a, b, u, v); }
    forall u | 0 <= u < |h'.own| ensures LinkOk(h', u) { JoinedLink(h, a, b, u); }
  }

  // ---------- free ----------

  /** free's first half: b is on the list, joined with the block behind it if that starts where b ends. */
  function FreedFirst(h: Heap, p: int, b: int): (r: Heap)
    requires Sized(h) && Unit(h, p) && Unit(h, b) && Unit(h, h.ptr[p])
    ensures Sized(r) && |r.own| == |h.own|
  {
    if b + h.size[b] == h.ptr[p] then Joined(Insert(h, p, b), b, h.ptr[p]) else Insert(h, p, b)
  }

  /** What free does to the heap once it has found p. */
  function Freed(h: Heap, p: int, b: int): (r: Heap)
    requires Sized(h) && Unit(h, p) && Unit(h, b) && Unit(h, h.ptr[p])
  { if p + h.size[p] == b then Joined(FreedFirst(h, p, b), p, b) else FreedFirst(h, p, b) }

  /** Unit u over a free of block b: blocks still in use keep their units and sizes, and a
      unit is free exactly if it was free or in b. */
  ghost predicate FreeSpec(h: Heap, h': Heap, b: int, u: int)
    requires Sized(h) && Sized(h') && |h.own| <= |h'.own| && Unit(h, u)
  {
    && (h.own[u] == NONE <==> h'.own[u] == NONE)
    && (Live(h, h.own[u]) && h.own[u] != b ==> h'.own[u] == h.own[u] && Live(h', h.own[u]) && h'.size[h.own[u]] == h.size[h.own[u]])
    && (UnitFree(h', u) <==> UnitFree(h, u) || h.own[u] == b)
  }

  ghost predicate Given(h: Heap, h': Heap, b: int) {
    && Sized(h) && Sized(h') && |h'.own| == |h.own|
    && forall u :: 0 <= u < |h.own| ==> FreeSpec(h, h', b, u)
  }

  lemma FreedFirstListed(h: Heap, p: int, b: int)
    requires Listed(h) && Slot(h, p, b) && Unit(h, h.ptr[p])
    ensures var h2 := FreedFirst(h, p, b);
            && Listed(h2) && h2.isFree[p] && h2.isFree[b] && h2.ptr[p] == b
            && h2.size[p] == h.size[p] && (p + h.size[p] == b ==> BASE < p)
  {
    var q := h.ptr[p];
    assert LinkOk(h, p) && UnitOk(h, p) && UnitOk(h, b) && UnitOk(h, BASE) && UnitOk(h, q);
    InsertListed(h, p, b);
    if b + h.size[b] == q { JoinedListed(Insert(h, p, b), b, q); }
  }

  /** No free block but p's can end where b starts. */
  lemma OnlyPrevious(h: Heap, p: int, b: int, u: int)
    requires Listed(h) && Slot(h, p, b) && Unit(h, u) && h.isFree[u] && u != BASE && u + h.size[u] == b
    ensures u == p
  {
    assert LinkOk(h, p) && UnitOk(h, u) && UnitOk(h, BASE) && LinkOk(h, u) && InBlock(h, u, p) && UnitOk(h, p);
  }

  /** No free block but the next can start where b ends. */
  lemma OnlyNext(h: Heap, p: int, b: int)
    requires Listed(h) && Slot(h, p, b) && Unit(h, b + h.size[b]) && h.isFree[b + h.size[b]]
    ensures h.ptr[p] == b + h.size[b]
  {
    assert LinkOk(h, p) && UnitOk(h, b) && InBlock(h, b, h.ptr[p]) && UnitOk(h, h.ptr[p]);
  }

  lemma FreedFirstApart(h: Heap, p: int, b: int, u: int)
    requires Wf(h) && Slot(h, p, b) && Unit(h, h.ptr[p]) && Unit(h, u) && u != p
    ensures Apart(FreedFirst(h, p, b), u)
  {
    assert Apart(h, u) && Apart(h, h.ptr[p]) && UnitOk(h, b) && LinkOk(h, p) && UnitOk(h, h.ptr[p]);
    if h.isFree[u] && u != BASE && u + h.size[u] == b { OnlyPrevious(h, p, b, u); }
    if Unit(h, b + h.size[b]) && h.isFree[b + h.size[b]] { OnlyNext(h, p, b); }
  }

  lemma FreedFirstSpec(h: Heap, p: int, b: int, u: int)
    requires Blocks(h) && Slot(h, p, b) && Unit(h, h.ptr[p]) && h.isFree[h.ptr[p]] && Unit(h, u)
    ensures FreeSpec(h, FreedFirst(h, p, b), b, u)
  {
    assert UnitOk(h, u) && UnitOk(h, h.ptr[p]) && UnitOk(h, b);
    if h.own[u] != NONE { assert UnitOk(h, h.own[u]); }
  }

  lemma JoinedApart(h: Heap, a: int, b: int, u: int)
    requires Listed(h) && Adjacent(h, a, b) && Unit(h, u) && (u == a || Apart(h, u)) && Apart(h, b)
    ensures Apart(Joined(h, a, b), u)
  {
    assert UnitOk(h, a) && UnitOk(h, b);
  }

  lemma JoinedSpec(h: Heap, h2: Heap, a: int, b: int, u: int)
    requires Sized(h) && Blocks(h2) && |h.own| == |h2.own| && Adjacent(h2, a, b) && Unit(h, u)
    requires Unit(h, a) && Unit(h, b) && !Live(h, a) && Live(h, b) && FreeSpec(h, h2, b, u)
    ensures FreeSpec(h, Joined(h2, a, b), b, u)
  {
    assert UnitOk(h2, u) && UnitOk(h2, a) && UnitOk(h2, b);
  }

  /** free keeps the heap well formed, fully coalesced, and gives back b's units. */
  lemma FreedOk(h: Heap, p: int, b: int)
    requires Wf(h) && Slot(h, p, b)
    ensures Unit(h, h.ptr[p]) && Wf(Freed(h, p, b)) && Freed(h, p, b).isFree[p] && Given(h, Freed(h, p, b), b)
  {
    assert LinkOk(h, p) && UnitOk(h, p);
    var h2, h' := FreedFirst(h, p, b), Freed(h, p, b);
    FreedFirstListed(h, p, b);
    forall u | 0 <= u < |h.own| ensures FreeSpec(h, h2, b, u) && (u != p ==> Apart(h2, u)) {
      FreedFirstSpec(h, p, b, u);
      if u != p { FreedFirstApart(h, p, b, u); }
    }
    if p + h.size[p] == b {
      JoinedListed(h2, p, b);
      forall u | 0 <= u < |h.own| ensures FreeSpec(h, h', b, u) && Apart(h', u) {
        JoinedSpec(h, h2, p, b, u);
        JoinedApart(h2, p, b, u);
      }
    } else {
      FreedNotJoined(h2, p, b);
    }
  }

  lemma FreedNotJoined(h: Heap, p: int, b: int)
    requires Listed(h) && Unit(h, p) && h.isFree[p] && h.ptr[p] == b && p + h.size[p] != b
    ensures Apart(h, p)
  {
    assert LinkOk(h, p) && UnitOk(h, p) && InBlock(h, p, b) && UnitOk(h, b);
  }

  // ---------- malloc ----------

  /** p leaves the list. */
  function Unlinked(h: Heap, prev: int, p: int): Heap
    requires Sized(h) && Unit(h, prev) && Unit(h, p)
  { h.(ptr := h.ptr[prev := h.ptr[p]], isFree := h.isFree[p := false]) }

  /** The last n units of p, from c on, become a block of their own. */
  function Cut(h: Heap, p: int, c: int, n: int): Heap
    requires Sized(h) && Unit(h, p) && Unit(h, c)
  {
    h.(size := h.size[p := h.size[p] - n][c := n],
       own := seq(|h.own|, u requires 0 <= u < |h.own| => if c <= u < c + n then c else h.own[u]))
  }

  /** Unit u over a malloc that returns block c of n units. */
  ghost predicate AllocSpec(h: Heap, h': Heap, c: int, n: int, u: int)
    requires Sized(h) && Sized(h') && |h.own| == |h'.own| && Unit(h, u)
  {
    && (h'.own[u] == c <==> c <= u < c + n)
    && (c <= u < c + n ==> UnitFree(h, u))
    && (h.own[u] == NONE <==> h'.own[u] == NONE)
    && (Live(h, h.own[u]) ==> h'.own[u] == h.own[u] && Live(h', h.own[u]) && h'.size[h.own[u]] == h.size[h.own[u]])
    && (UnitFree(h', u) <==> UnitFree(h, u) && !(c <= u < c + n))
  }

  ghost predicate Taken(h: Heap, h': Heap, c: int, n: int) {
    && Sized(h) && Sized(h') && |h'.own| == |h.own| && Live(h', c) && h'.size[c] == n
    && forall u :: 0 <= u < |h.own| ==> AllocSpec(h, h', c, n, u)
  }

  lemma UnlinkedOk(h: Heap, prev: int, p: int)
    requires Wf(h) && Unit(h, prev) && h.isFree[prev] && h.ptr[prev] == p && Unit(h, p) && p != BASE
    ensures Wf(Unlinked(h, prev, p)) && prev != p && Taken(h, Unlinked(h, prev, p), p, h.size[p])
  {
    var h' := Unlinked(h, prev, p);
    assert LinkOk(h, prev) && LinkOk(h, p) && UnitOk(h, p) && UnitOk(h, BASE);
    forall u | 0 <= u < |h.own| ensures UnitOk(h', u) && LinkOk(h', u) && Apart(h', u) && AllocSpec(h, h', p, h.size[p], u) {
      assert UnitOk(h, u) && LinkOk(h, u) && Apart(h, u) && InBlock(h, p, u);
    }
    forall u, v | 0 <= u < |h.own| && 0 <= v < |h.own| ensures InBlock(h', u, v) { assert InBlock(h, u, v); }
  }

  ghost predicate Cuttable(h: Heap, p: int, c: int, n: int)
    requires Sized(h)
  { Unit(h, p) && h.isFree[p] && 0 < n < h.size[p] && c == p + h.size[p] - n && Unit(h, c) && !h.isFree[c] }

  lemma CutUnit(h: Heap, p: int, c: int, n: int, u: int)
    requires Blocks(h) && Cuttable(h, p, c, n) && Unit(h, u)
    ensures UnitOk(Cut(h, p, c, n), u) && AllocSpec(h, Cut(h, p, c, n), c, n, u)
  {
    assert UnitOk(h, u) && UnitOk(h, p) && UnitOk(h, c) && InBlock(h, p, u) && InBlock(h, p, c);
    if h.own[u] != NONE { assert InBlock(h, p, h.own[u]); }
  }

  lemma CutLink(h: Heap, p: int, c: int, n: int, u: int)
    requires Listed(h) && Cuttable(h, p, c, n) && Unit(h, u) && Apart(h, u)
    ensures LinkOk(Cut(h, p, c, n), u) && Apart(Cut(h, p, c, n), u)
  {
    assert LinkOk(h, u);
  }

  lemma CutIn(h: Heap, p: int, c: int, n: int, u: int, v: int)
    requires Blocks(h) && Cuttable(h, p, c, n) && Unit(h, u) && Unit(h, v)
    ensures InBlock(Cut(h, p, c, n), u, v)
  {
    assert InBlock(h, u, v) && InBlock(h, p, v) && InBlock(h, p, u) && InBlock(h, p, c) && UnitOk(h, u) && UnitOk(h, v) && UnitOk(h, p);
  }

  lemma CutOk(h: Heap, p: int, c: int, n: int)
    requires Wf(h) && Unit(h, p) && h.isFree[p] && 0 < n < h.size[p] && c == p + h.size[p] - n
    ensures Unit(h, c) && Wf(Cut(h, p, c, n)) && Taken(h, Cut(h, p, c, n), c, n)
  {
    assert UnitOk(h, p) && InBlock(h, p, c) && UnitOk(h, c);
    var h' := Cut(h, p, c, n);
    forall u | 0 <= u < |h.own| ensures UnitOk(h', u) && LinkOk(h', u) && Apart(h', u) && AllocSpec(h, h', c, n, u) {
      CutUnit(h, p, c, n, u);
      CutLink(h, p, c, n, u);
    }
    forall u, v | 0 <= u < |h.own| && 0 <= v < |h.own| ensures InBlock(h', u, v) { CutIn(h, p, c, n, u, v); }
  }

  // ---------- morecore ----------

  /** sbrk returns nu units at address at; those between the old top and at are not ours. */
  function Extended(h: Heap, at: int, nu: int): Heap
    requires Sized(h) && |h.own| <= at && 0 < nu
  {
    var gap, add := at - |h.own|, at + nu - |h.own|;
    Heap(h.ptr + seq(add, _ => 0), (h.size + seq(add, _ => 0))[at := nu],
         h.own + seq(add, i => if i < gap then NONE else at), h.isFree + seq(add, _ => false))
  }

  lemma ExtendedOk(h: Heap, at: int, nu: int)
    requires Wf(h) && |h.own| <= at && 0 < nu
    ensures Wf(Extended(h, at, nu)) && Live(Extended(h, at, nu), at) && |Extended(h, at, nu).own| == at + nu
  {
    var h' := Extended(h, at, nu);
    assert UnitOk(h, BASE);
    forall u | 0 <= u < |h'.own| ensures UnitOk(h', u) && LinkOk(h', u) && Apart(h', u) {
      if u < |h.own| { assert UnitOk(h, u) && LinkOk(h, u) && Apart(h, u); }
    }
    forall u, v | 0 <= u < |h'.own| && 0 <= v < |h'.own| ensures InBlock(h', u, v) {
      if u < |h.own| && v < |h.own| { assert InBlock(h, u, v); }
      if u < |h.own| { assert UnitOk(h, u); }
    }
  }

  /** Unit u over a morecore: nothing in use changes, and the new units are free. */
  ghost predicate GrowSpec(h: Heap, h': Heap, at: int, u: int)
    requires Sized(h) && Sized(h') && |h.own| <= at <= |h'.own| && Unit(h', u)
  {
    if u < |h.own| then FreeSpec(h, h', at, u)
    else if u < at then h'.own[u] == NONE
    else UnitFree(h', u)
  }

  ghost predicate Grown(h: Heap, h': Heap, at: int, nu: int) {
    && Sized(h) && Sized(h') && |h.own| <= at && 0 < nu && |h'.own| == at + nu
    && forall u :: 0 <= u < |h'.own| ==> GrowSpec(h, h', at, u)
  }

  lemma GrownOk(h: Heap, at: int, nu: int, p: int)
    requires Wf(h) && |h.own| <= at && 0 < nu && Slot(Extended(h, at, nu), p, at)
    ensures Wf(Extended(h, at, nu)) && Unit(Extended(h, at, nu), Extended(h, at, nu).ptr[p])
    ensures var h' := Freed(Extended(h, at, nu), p, at);
            && Wf(h') && Grown(h, h', at, nu) && h'.isFree[p] && Unit(h', h'.ptr[p])
            && (h'.size[p] >= nu || h'.size[h'.ptr[p]] >= nu)
  {
    var h1 := Extended(h, at, nu);
    ExtendedOk(h, at, nu);
    FreedOk(h1, p, at);
    var h' := Freed(h1, p, at);
    assert UnitOk(h1, p) && UnitOk(h1, h1.ptr[p]) && LinkOk(h', p);
    forall u | 0 <= u < |h'.own| ensures GrowSpec(h, h', at, u) {
      assert FreeSpec(h1, h', at, u);
      if u < |h.own| { assert UnitOk(h, u); }
    }
  }

  /** A user may write anything into its units: no header is there. */
  lemma UserWrite(h: Heap, u: int, ptr: int, size: int)
    requires Wf(h) && Unit(h, u) && h.own[u] != u
    ensures Wf(h.(ptr := h.ptr[u := ptr], size := h.size[u := size]))
  {
    var h' := h.(ptr := h.ptr[u := ptr], size := h.size[u := size]);
    forall v | 0 <= v < |h.own| ensures UnitOk(h', v) && LinkOk(h', v) && Apart(h', v) {
      assert UnitOk(h, v) && UnitOk(h, u) && LinkOk(h, v) && Apart(h, v);
    }
    forall v, w | 0 <= v < |h.own| && 0 <= w < |h.own| ensures InBlock(h', v, w) { assert InBlock(h, v, w); }
  }

  // ---------- walking the list ----------

  /** How far up, starting again at the bottom, t is from u. */
  function Distance(u: int, t: int, top: int): int { if u <= t then t - u else t - u + top }

  lemma Closer(h: Heap, u: int, t: int)
    requires Listed(h) && Unit(h, u) && h.isFree[u] && Unit(h, t) && h.isFree[t] && u != t
    ensures Unit(h, h.ptr[u]) && h.isFree[h.ptr[u]]
    ensures 0 <= Distance(h.ptr[u], t, |h.own|) < Distance(u, t, |h.own|)
  {
    assert LinkOk(h, u);
  }

  /** No free block has n units. */
  ghost predicate NoFit(h: Heap, n: int)
    requires Sized(h)
  { forall w :: 0 <= w < |h.own| && h.isFree[w] ==> h.size[w] < n }

  /** On the way from behind `start` all free blocks before p are too small. */
  ghost predicate SmallBefore(h: Heap, start: int, p: int, n: int)
    requires Sized(h)
  {
    forall w :: 0 <= w < |h.own| && h.isFree[w] && Distance(w, start, |h.own|) > Distance(p, start, |h.own|) ==> h.size[w] < n
  }

  lemma SearchStarts(h: Heap, start: int, n: int)
    requires Listed(h) && Unit(h, start) && h.isFree[start]
    ensures Unit(h, h.ptr[start]) && SmallBefore(h, start, h.ptr[start], n)
  {
    assert LinkOk(h, start);
  }

  lemma SearchGoesOn(h: Heap, start: int, p: int, n: int)
    requires Listed(h) && Unit(h, start) && h.isFree[start] && Unit(h, p) && h.isFree[p] && p != start
    requires SmallBefore(h, start, p, n) && h.size[p] < n
    ensures Unit(h, h.ptr[p]) && SmallBefore(h, start, h.ptr[p], n)
  {
    assert LinkOk(h, p);
  }

  /** The header that free looks for. */
  lemma Previous(h: Heap, b: int) returns (t: int)
    requires Wf(h) && Live(h, b)
    ensures Unit(h, t) && Slot(h, t, b)
  {
    assert UnitOk(h, BASE) && UnitOk(h, b);
    t := b - 1;
    while !h.isFree[t]
      invariant 0 <= t < b && forall w :: t < w < b ==> !h.isFree[w]
      decreases t
    {
      t := t - 1;
    }
    assert LinkOk(h, t);
  }

  /** Every free header is reached from base. */
  ghost function Steps(h: Heap, k: nat): int
    requires Listed(h)
    ensures Unit(h, Steps(h, k)) && h.isFree[Steps(h, k)]
  {
    assert UnitOk(h, BASE);
    if k == 0 then BASE else (assert LinkOk(h, Steps(h, k - 1)); h.ptr[Steps(h, k - 1)])
  }

  lemma {:induction false} Reached(h: Heap, u: int, t: int, k: nat) returns (n: nat)
    requires Listed(h) && u == Steps(h, k) && Unit(h, t) && h.isFree[t]
    ensures Steps(h, n) == t
    decreases Distance(u, t, |h.own|)
  {
    if u == t {
      n := k;
    } else {
      Closer(h, u, t);
      n := Reached(h, h.ptr[u], t, k + 1);
    }
  }
}
