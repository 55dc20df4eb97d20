/** Sizes of pages, addresses and unsigned integers. */
module Machine {
  const PGSIZE := 4096
  const MAXVA := 0x40_0000_0000         // one bit less than Sv39 allows, kernel/riscv.h
  const TWO16 := 0x1_0000
  const TWO32 := 0x1_0000_0000
  const TWO64 := 0x1_0000_0000_0000_0000

  /** The int that a larger integer becomes when it is passed as one. */
  function Int32(x: int): int {
    var u := x % TWO32;
    if u < 0x8000_0000 then u else u - TWO32
  }

  /** The size of a process after growproc(n) succeeds: the sum is taken as a uint, and uvmalloc does not
      shrink nor uvmdealloc grow. */
  function NewSize(sz: int, n: int): int {
    var s := (sz + n) % TWO32;
    if (n > 0 && s >= sz) || (n < 0 && s < sz) then s else sz
  }

  /** growproc's sum is a uint. */
  lemma UintSum(sz: int, n: int)
    requires 0 <= sz < TWO32 && -0x8000_0000 <= n < 0x8000_0000
    ensures 0 <= (sz + n) % TWO32 < TWO32
    ensures n > 0 ==> ((sz + n) % TWO32 >= sz <==> sz + n < TWO32) && (sz + n < TWO32 ==> (sz + n) % TWO32 == sz + n)
    ensures n < 0 ==> ((sz + n) % TWO32 < sz <==> 0 <= sz + n) && (0 <= sz + n ==> (sz + n) % TWO32 == sz + n)
  {}
}
