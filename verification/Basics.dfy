/** Types shared by all models. */
module Basics {
  datatype Option<+T> = None | Some(value: T)

  type byte = n: int | 0 <= n < 0x100

  type word = n: int | 0 <= n < 0x1_0000

  /** A condition, or a bit, as a number */
  function Num(b: bool): nat {
    if b then 1 else 0
  }

  /** Bit `k` of a number */
  predicate BitOf(v: nat, k: nat)
    decreases k
  {
    if k == 0 then v % 2 == 1 else BitOf(v / 2, k - 1)
  }

  lemma LowBits(v: nat)
    ensures BitOf(v, 0) <==> v % 2 == 1
    ensures BitOf(v, 1) <==> v / 2 % 2 == 1
    ensures BitOf(v, 2) <==> v / 4 % 2 == 1
    ensures BitOf(v, 3) <==> v / 8 % 2 == 1
  {
    assert v / 2 / 2 == v / 4 && v / 4 / 2 == v / 8;
    assert BitOf(v, 2) == BitOf(v / 2, 1) == BitOf(v / 4, 0);
    assert BitOf(v, 3) == BitOf(v / 2, 2) == BitOf(v / 4, 1) == BitOf(v / 8, 0);
  }

  lemma HighBits(v: nat)
    ensures BitOf(v, 4) <==> v / 0x10 % 2 == 1
    ensures BitOf(v, 5) <==> v / 0x20 % 2 == 1
    ensures BitOf(v, 6) <==> v / 0x40 % 2 == 1
    ensures BitOf(v, 7) <==> v / 0x80 % 2 == 1
  {
    assert v / 2 / 2 == v / 4 && v / 4 / 2 == v / 8 && v / 8 / 2 == v / 0x10;
    LowBits(v / 0x10);
    assert v / 0x10 / 2 == v / 0x20 && v / 0x10 / 4 == v / 0x40 && v / 0x10 / 8 == v / 0x80;
    assert BitOf(v, 4) == BitOf(v / 0x10, 0);
    assert BitOf(v, 5) == BitOf(v / 0x10, 1);
    assert BitOf(v, 6) == BitOf(v / 0x10, 2);
    assert BitOf(v, 7) == BitOf(v / 0x10, 3);
  }

  lemma TwoBits(q: nat)
    ensures q % 4 == 2 * (q / 2 % 2) + q % 2
  {
  }

  // C's truncation of sums and differences, by cases rather than by division.

  /** `v & 0xff` */
  function Low8(v: int): byte {
    if 0 <= v < 0x100 then v
    else if 0x100 <= v < 0x200 then v - 0x100
    else if -0x100 <= v < 0 then v + 0x100
    else v % 0x100
  }

  /** `v & 0xffff` */
  function Low16(v: int): word {
    if 0 <= v < 0x1_0000 then v
    else if 0x1_0000 <= v < 0x2_0000 then v - 0x1_0000
    else if -0x1_0000 <= v < 0 then v + 0x1_0000
    else v % 0x1_0000
  }

  lemma LowIsRemainder(v: int)
    ensures Low8(v) == v % 0x100 && Low16(v) == v % 0x1_0000
  {
  }

  /** Counting on one by one. */
  lemma LowSteps(v: word)
    ensures Low16(Low16(v + 1) + 1) == Low16(v + 2) && Low16(Low16(v + 2) + 1) == Low16(v + 3)
  {
  }

  /** Quotient and remainder are unique. */
  lemma RemainderOf(l: nat, d: nat, q: nat, r: nat)
    requires r < d && l == q * d + r
    ensures l / d == q && l % d == r
  {
    assert l == l / d * d + l % d;
    assert (l / d - q) * d == r - l % d;
    SmallMultiple(l / d - q, d);
  }

  /** A multiple of `d` that is smaller than `d` in size is zero. */
  lemma SmallMultiple(e: int, d: nat)
    requires 0 - d < e * d < d
    ensures e == 0
  {
  }
}
