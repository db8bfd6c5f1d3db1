/** A 32-bit bus word as the set of its high lines: `&` is intersection, `|` is union and
    `1 << n` is the singleton of `n`. */
module BusLines {
  import opened Bytes

  type Word = s: set<nat> | forall n :: n in s ==> n < 32

  /** Bit `n` of a number. */
  predicate BitSet(x: nat, n: nat) {
    if n == 0 then x % 2 == 1 else BitSet(x / 2, n - 1)
  }

  /** The high lines of a number. */
  function Lines(x: uint32): Word {
    set n: nat | n < 32 && BitSet(x, n)
  }

  /** `2^n`. */
  function Pow2(n: nat): (p: nat)
    ensures p >= 1
  {
    if n == 0 then 1 else 2 * Pow2(n - 1)
  }

  /** A number below `2^k` has no high bit from position `k` on. */
  lemma {:induction false} NoBitAbove(x: nat, k: nat, n: nat)
    requires x < Pow2(k) && k <= n
    ensures !BitSet(x, n)
    decreases n
  {
    if n == 0 {
      assert x == 0;
    } else if k == 0 {
      NoBitAbove(x / 2, 0, n - 1);
    } else {
      NoBitAbove(x / 2, k - 1, n - 1);
    }
  }

  /** A number below `2^k` is determined by its low `k` bits. */
  lemma {:induction false} BitsDetermine(x: nat, y: nat, k: nat)
    requires x < Pow2(k) && y < Pow2(k)
    requires forall n: nat :: n < k ==> (BitSet(x, n) <==> BitSet(y, n))
    ensures x == y
  {
    if k > 0 {
      assert BitSet(x, 0) <==> BitSet(y, 0);
      forall n: nat | n < k - 1
        ensures BitSet(x / 2, n) <==> BitSet(y / 2, n)
      {
        assert BitSet(x, n + 1) <==> BitSet(y, n + 1);
      }
      BitsDetermine(x / 2, y / 2, k - 1);
    }
  }

  /** `2^k` has exactly one high bit. */
  lemma {:induction false} BitOfPow2(k: nat, n: nat)
    ensures BitSet(Pow2(k), n) <==> n == k
  {
    if n == 0 {
    } else if k == 0 {
      NoBitAbove(0, 0, n - 1);
    } else {
      assert Pow2(k) / 2 == Pow2(k - 1);
      BitOfPow2(k - 1, n - 1);
    }
  }

  lemma {:induction false} Pow2Grows(j: nat, k: nat)
    requires j <= k
    ensures Pow2(j) <= Pow2(k)
  {
    if j < k {
      Pow2Grows(j, k - 1);
    }
  }

  lemma Pow2Of(k: nat)
    requires k <= 32
    ensures Pow2(k) <= 0x1_0000_0000
  {
    assert Pow2(8) == 0x100;
    assert Pow2(16) == 0x1_0000;
    assert Pow2(24) == 0x100_0000;
    assert Pow2(32) == 0x1_0000_0000;
    Pow2Grows(k, 32);
  }
}
