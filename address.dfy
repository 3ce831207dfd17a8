/** Address decomposition of csim.c (query_cache, lines 154-155).
    An address is a 64-bit unsigned value (`unsigned long`). A logical right
    shift by k drops the k lowest bits, and masking with (1 << s) - 1 keeps
    the s lowest bits; both are defined here bit by bit. */
module Addressing {

  /** Number of distinct values of a 64-bit unsigned integer. */
  const WordValues: nat := 0x1_0000_0000_0000_0000

  /** The C `address` type: `unsigned long` on a 64-bit platform. */
  type Address = a: int | 0 <= a < WordValues

  /** The simulator's configuration: 2^s sets, E lines per set, 2^b bytes per block. */
  datatype CacheParams = CacheParams(s: nat, E: nat, b: nat)

  /** The parameters for which query_cache is well defined: at least one line
      per set (it writes line 0 of a full set), `1 << s` fits an `int`, and
      both shifts stay below the word width. */
  predicate WellFormed(cp: CacheParams)
  {
    cp.E >= 1 && cp.s < 31 && cp.s + cp.b < 64
  }

  function Pow2(k: nat): (r: nat)
    ensures r >= 1
  {
    if k == 0 then 1 else 2 * Pow2(k - 1)
  }

  /** `a >> k` on an unsigned operand: k halvings, each dropping the lowest bit. */
  function ShiftRight(a: nat, k: nat): nat
  {
    if k == 0 then a else ShiftRight(a / 2, k - 1)
  }

  /** `a & ((1 << k) - 1)`: the k low-order bits of a. */
  function LowBits(a: nat, k: nat): (r: nat)
    ensures r < Pow2(k)
  {
    if k == 0 then 0 else 2 * LowBits(a / 2, k - 1) + a % 2
  }

  /** `cur_tag = address_i >> (cp.s + cp.b)` */
  function TagOf(cp: CacheParams, a: Address): nat
  {
    ShiftRight(a, cp.s + cp.b)
  }

  /** `set_idx = address_i >> cp.b & ((1 << cp.s) - 1)`; always a valid index
      into an array of 2^s sets. */
  function SetIndexOf(cp: CacheParams, a: Address): (idx: nat)
    ensures idx < Pow2(cp.s)
  {
    LowBits(ShiftRight(a, cp.b), cp.s)
  }

  /** Shifting by m and then by n is shifting by m + n. */
  lemma {:induction false} ShiftRightAdd(a: nat, m: nat, n: nat)
    ensures ShiftRight(ShiftRight(a, m), n) == ShiftRight(a, m + n)
  {
    if m > 0 {
      ShiftRightAdd(a / 2, m - 1, n);
    }
  }

  /** A value is its high part shifted back up plus its k low bits:
      a == ((a >> k) << k) + (a & ((1 << k) - 1)). */
  lemma {:induction false} HighLowSplit(a: nat, k: nat)
    ensures a == ShiftRight(a, k) * Pow2(k) + LowBits(a, k)
  {
    if k > 0 {
      HighLowSplit(a / 2, k - 1);
      var h, p, l := ShiftRight(a / 2, k - 1), Pow2(k - 1), LowBits(a / 2, k - 1);
      calc {
        ShiftRight(a, k) * Pow2(k) + LowBits(a, k);
        h * (2 * p) + (2 * l + a % 2);
        { DoubleFactor(h, p); }
        2 * (h * p + l) + a % 2;
        2 * (a / 2) + a % 2;
        a;
      }
    }
  }

  /** Doubling one factor doubles the product. */
  lemma DoubleFactor(h: nat, p: nat)
    ensures h * (2 * p) == 2 * (h * p)
  {
  }

  /** The address bits above the block offset are exactly the tag followed by
      the set index: (a >> b) == (tag << s) + set_idx. */
  lemma AddressSplit(cp: CacheParams, a: Address)
    requires WellFormed(cp)
    ensures ShiftRight(a, cp.b) == TagOf(cp, a) * Pow2(cp.s) + SetIndexOf(cp, a)
  {
    ShiftRightAdd(a, cp.b, cp.s);
    assert cp.b + cp.s == cp.s + cp.b;
    HighLowSplit(ShiftRight(a, cp.b), cp.s);
  }

  /** Two addresses that agree on tag and set index lie in the same block. */
  lemma SameBlock(cp: CacheParams, a1: Address, a2: Address)
    requires WellFormed(cp)
    requires TagOf(cp, a1) == TagOf(cp, a2) && SetIndexOf(cp, a1) == SetIndexOf(cp, a2)
    ensures ShiftRight(a1, cp.b) == ShiftRight(a2, cp.b)
  {
    AddressSplit(cp, a1);
    AddressSplit(cp, a2);
  }
}
