/**
 Decimal mode: ADC and SBC as four cores write them, one digit at a time, each in its own way, and what
 chains of them compute. Only the accumulator and the carry are modelled.
 */
module Decimal {
  import opened Basics

  // ---------------------------------------------------------------- one digit, one byte

  type digit = n: int | 0 <= n < 16

  /** A digit and the carry (or the borrow) out of it. */
  datatype Step = Step(d: digit, out: bool)

  datatype Result = Result(a: byte, c: bool)

  /** What ADC or SBC make of the accumulator, the operand and the carry. */
  type Adder = (byte, byte, bool) -> Result

  /** One digit of a decimal sum. Digits above nine are not excluded: whatever exceeds nine is adjusted
      by six once, and one carry goes on. */
  function AddDigit(x: digit, y: digit, c: bool): Step {
    var t := x + y + Num(c);
    if t > 9 then Step(if t + 6 >= 32 then t + 6 - 32 else if t + 6 >= 16 then t + 6 - 16 else t + 6, true)
    else Step(t, false)
  }

  /** One digit of a decimal difference, with a borrow in and out. */
  function SubDigit(x: digit, y: digit, b: bool): Step {
    var t := x - y - Num(b);
    if t < 0 then Step(if t - 6 < -16 then t - 6 + 32 else t - 6 + 16, true) else Step(t, false)
  }

  /** The decimal sum of two bytes. */
  function Add(a: byte, v: byte, c: bool): Result {
    var low := AddDigit(a % 16, v % 16, c);
    var high := AddDigit(a / 16, v / 16, low.out);
    Result(low.d + 16 * high.d, high.out)
  }

  /** The decimal difference of two bytes; the carry is the complement of the borrow. */
  function Sub(a: byte, v: byte, c: bool): Result {
    var low := SubDigit(a % 16, v % 16, !c);
    var high := SubDigit(a / 16, v / 16, low.out);
    Result(low.d + 16 * high.d, !high.out)
  }

  /** The difference of 65c02core.c. It subtracts the adjustment of the low digit from the whole byte: when
      that digit falls by more than ten, the borrow of the adjustment is counted once more. */
  function SubCmos(a: byte, v: byte, c: bool): Result {
    var r := Sub(a, v, c);
    if a % 16 - v % 16 - Num(!c) >= -10 then r
    else Result(if r.a < 0x10 then r.a + 0xf0 else r.a - 0x10, r.c)
  }

  /** The two differences agree exactly when the low digit falls by ten at most. With an operand digit
      of nine or less it always does. */
  lemma CmosAgrees(a: byte, v: byte, c: bool)
    ensures SubCmos(a, v, c) == Sub(a, v, c) <==> a % 16 - v % 16 - Num(!c) >= -10
    ensures v % 16 <= 9 ==> SubCmos(a, v, c) == Sub(a, v, c)
    ensures SubCmos(a, v, c).c == Sub(a, v, c).c
  {
  }

  /** A digit below a number of sixteens, and its value as a byte. */
  lemma Nibbles(v: int, d: digit, h: int)
    requires v == d + 16 * h && -32 <= h < 64
    ensures v % 16 == d && v / 16 == h
    ensures v % 0x100 == d + 16 * Wrapped(h)
  {
  }

  function Wrapped(h: int): digit
    requires -32 <= h < 64
  {
    if h < -16 then h + 32 else if h < 0 then h + 16 else if h < 16 then h else if h < 32 then h - 16
    else if h < 48 then h - 32 else h - 48
  }

  /** Adjusting the low digit by six. */
  lemma LowSum(x: digit, y: digit, c: bool)
    ensures var t := x + y + Num(c);
            var low := AddDigit(x, y, c);
            && (t > 9 <==> low.out) && (if t > 9 then t + 6 else t) % 16 == low.d
            && ((if t > 9 then t + 6 else t) > 15 <==> low.out)
  {
  }

  /** Adjusting the high digit, with the low one already in place. */
  lemma HighSum(tmp: int, d: digit, x: digit, y: digit, b: bool)
    requires tmp == d + 16 * (x + y + Num(b))
    ensures tmp % 0x10 == d && tmp < 0x200 && (tmp > 0x9f <==> x + y + Num(b) > 9)
    ensures var t := if tmp > 0x9f then tmp + 0x60 else tmp;
            var high := AddDigit(x, y, b);
            && t % 0x10 == d && t % 0x100 == d + 16 * high.d && (t > 0xff <==> high.out)
  {
    Nibbles(tmp, d, x + y + Num(b));
    Nibbles(tmp + 0x60, d, x + y + Num(b) + 6);
  }

  /** Comparing a masked sum: `tmp & 0x1f0` in 6510core.c. */
  lemma MaskedSum(tmp: int)
    requires 0 <= tmp < 0x200
    ensures tmp % 0x200 - tmp % 0x10 > 0x90 <==> tmp > 0x9f
  {
  }

  /** The carry out of a masked sum: `tmp & 0xff0` in 6510core.c, `tmp2 & 0xff00` in 65c02core.c. */
  lemma MaskedCarry(t: int)
    requires 0 <= t < 0x260
    ensures t % 0x1000 - t % 0x10 > 0xf0 <==> t > 0xff
    ensures t % 0x1_0000 - t % 0x100 != 0 <==> t > 0xff
  {
  }

  /** The low digit of a difference, and how it enters the whole. */
  lemma LowDifference(a: byte, v: byte, c: bool)
    ensures var t := a % 16 - v % 16 - Num(!c);
            var low := SubDigit(a % 16, v % 16, !c);
            && (t < 0 <==> low.out)
            && low.d == (if t < -10 then t + 26 else if t < 0 then t + 10 else t)
            && low.d == (if t < 0 then t - 6 else t) % 16
            && a - v - Num(!c) == t + 16 * (a / 16 - v / 16)
  {
  }

  /** The same digits from the sum with the complement, as in 65816core.c. */
  lemma LowComplement(a: byte, v: byte, c: bool)
    ensures var low := a % 16 + (15 - v % 16) + Num(c);
            var s := SubDigit(a % 16, v % 16, !c);
            && (low < 0x10 <==> s.out) && (if low < 0x10 then low - 6 else low) % 16 == s.d
  {
  }

  lemma HighComplement(a: byte, v: byte, c: bool)
    ensures var all := a + (0xff - v) + Num(c);
            var top := if all < 0x100 then all - 0x60 else all;
            var high := SubDigit(a / 16, v / 16, SubDigit(a % 16, v % 16, !c).out);
            top % 0x100 - top % 0x10 == 16 * high.d && (all > 0xff <==> !high.out)
  {
    var low := a % 16 + (15 - v % 16) + Num(c);
    var h := a / 16 - v / 16 - Num(low < 0x10);
    var d: digit := if low < 0x10 then low else low - 16;
    var all := a + (0xff - v) + Num(c);
    assert all == 0x100 + 16 * h + d;
    if all < 0x100 {
      Nibbles(all - 0x60, d, h + 10);
    } else {
      Nibbles(all, d, h + 16);
    }
  }

  lemma HighDifference(tmp: int, d: digit, x: digit, y: digit, b: bool, extra: bool)
    requires var h := x - y - Num(b);
             tmp == d + 16 * ((if h < 0 then h - 6 else h) - Num(extra))
    ensures var high := SubDigit(x, y, b);
            && tmp % 0x100 % 16 == d && (high.out <==> x - y - Num(b) < 0)
            && tmp % 0x100 / 16 == if !extra then high.d else if high.d == 0 then 15 else high.d - 1
  {
    var h := x - y - Num(b);
    Nibbles(tmp, d, (if h < 0 then h - 6 else h) - Num(extra));
  }

  // ---------------------------------------------------------------- the cores

  /** The accumulator and the carry flag, with `P_DECIMAL` set. */
  class Accumulator {
    var a: byte
    var carry: bool

    constructor (a: byte, carry: bool)
      ensures this.a == a && this.carry == carry
    {
      this.a := a;
      this.carry := carry;
    }

    /** `ADC` of 6510core.c */
    method AdcNmos(v: byte)
      modifies this
      ensures Result(a, carry) == Add(old(a), v, old(carry))
    {
      ghost var low := AddDigit(a % 16, v % 16, carry);
      LowSum(a % 16, v % 16, carry);
      var tmp: int := a % 16 + v % 16 + Num(carry);
      if tmp > 9 {
        tmp := tmp + 6;
      }
      if tmp <= 0x0f {
        tmp := tmp % 16 + (a - a % 16) + (v - v % 16);
      } else {
        tmp := tmp % 16 + (a - a % 16) + (v - v % 16) + 0x10;
      }
      HighSum(tmp, low.d, a / 16, v / 16, low.out);
      MaskedSum(tmp);
      if tmp % 0x200 - tmp % 0x10 > 0x90 {
        tmp := tmp + 0x60;
      }
      MaskedCarry(tmp);
      carry := tmp % 0x1000 - tmp % 0x10 > 0xf0;
      a := tmp % 0x100;
    }

    /** `ADC` of 65c02core.c */
    method AdcCmos(v: byte)
      modifies this
      ensures Result(a, carry) == Add(old(a), v, old(carry))
    {
      ghost var low := AddDigit(a % 16, v % 16, carry);
      LowSum(a % 16, v % 16, carry);
      var tmp: int := a % 16 + v % 16 + Num(carry);
      var tmp2: int := (a - a % 16) + (v - v % 16);
      if tmp > 9 {
        tmp2 := tmp2 + 0x10;
        tmp := tmp + 6;
      }
      HighSum(tmp2, 0, a / 16, v / 16, low.out);
      if tmp2 > 0x90 {
        tmp2 := tmp2 + 0x60;
      }
      MaskedCarry(tmp2);
      carry := tmp2 % 0x1_0000 - tmp2 % 0x100 != 0;
      a := tmp % 16 + (tmp2 % 0x100 - tmp2 % 0x10);
    }

    /** `ADC` of 65816core.c with an eight-bit accumulator */
    method AdcWdc(v: byte)
      modifies this
      ensures Result(a, carry) == Add(old(a), v, old(carry))
    {
      ghost var low := AddDigit(a % 16, v % 16, carry);
      LowSum(a % 16, v % 16, carry);
      var tmp2: int := a % 16 + v % 16 + Num(carry);
      var tmp: int := (a - a % 16) + (v - v % 16);
      if tmp2 > 9 {
        tmp2 := tmp2 + 6;
        tmp := tmp + 0x10;
      }
      tmp := tmp + tmp2 % 16;
      HighSum(tmp, low.d, a / 16, v / 16, low.out);
      if tmp > 0x9f {
        tmp := tmp + 0x60;
      }
      carry := tmp > 0xff;
      a := tmp % 0x100;
    }

    /** `SBC` of 6510core.c */
    method SbcNmos(v: byte)
      modifies this
      ensures Result(a, carry) == Sub(old(a), v, old(carry))
    {
      ghost var l := SubDigit(a % 16, v % 16, !carry);
      ghost var h := a / 16 - v / 16 - Num(l.out);
      LowDifference(a, v, carry);
      var borrow := if carry then 0 else 1;
      var tmp: int := a - v - borrow;
      var low: int := a % 16 - v % 16 - borrow;
      var r: int;
      if low < 0 {
        r := (low - 6) % 16 + (a - a % 16) - (v - v % 16) - 0x10;
      } else {
        r := low % 16 + (a - a % 16) - (v - v % 16);
      }
      assert r == l.d + 16 * h && (tmp < 0 <==> h < 0);
      if r < 0 {
        r := r - 0x60;
      }
      HighDifference(r, l.d, a / 16, v / 16, l.out, false);
      carry := 0 <= tmp;
      a := r % 0x100;
    }

    /** `SBC` of 65816core.c with an eight-bit accumulator */
    method SbcWdc(v: byte)
      modifies this
      ensures Result(a, carry) == Sub(old(a), v, old(carry))
    {
      LowComplement(a, v, carry);
      HighComplement(a, v, carry);
      var low: int := a % 16 + (15 - v % 16) + Num(carry);
      var tmp: int := (if low < 0x10 then low - 6 else low) % 16;
      var all: int := a + (0xff - v) + Num(carry);
      var top: int := if all < 0x100 then all - 0x60 else all;
      carry := all > 0xff;
      a := tmp + (top % 0x100 - top % 0x10);
    }

    /** `SBC` of 65c02core.c: what the other cores leave, exactly when the low digit falls by ten at most. */
    method SbcCmos(v: byte)
      modifies this
      ensures Result(a, carry) == SubCmos(old(a), v, old(carry))
      ensures Result(a, carry) == Sub(old(a), v, old(carry)) <==> old(a) % 16 - v % 16 - Num(!old(carry)) >= -10
      ensures carry == Sub(old(a), v, old(carry)).c
    {
      CmosAgrees(a, v, carry);
      ghost var l := SubDigit(a % 16, v % 16, !carry);
      ghost var h := a / 16 - v / 16 - Num(l.out);
      LowDifference(a, v, carry);
      var tmp: int := a - v + Num(carry) - 1;
      var tmp2: int := a % 16 - v % 16 + Num(carry) - 1;
      assert tmp == tmp2 + 16 * Num(l.out) + 16 * h && (tmp < 0 <==> h < 0);
      if tmp < 0 {
        tmp := tmp - 0x60;
      }
      if tmp2 < 0 {
        tmp := tmp - 6;
      }
      HighDifference(tmp, l.d, a / 16, v / 16, l.out, tmp2 < -10);
      carry := a + Num(carry) - 1 >= v;
      a := tmp % 0x100;
    }
  }

  // ---------------------------------------------------------------- sixteen bits

  datatype LongResult = LongResult(w: word, c: bool)

  /** An addition or a subtraction of two words: low bytes first, the carry going on. */
  function Wide(f: Adder, a: word, v: word, c: bool): LongResult {
    var low := f(a % 0x100, v % 0x100, c);
    var high := f(a / 0x100, v / 0x100, low.c);
    LongResult(low.a + 0x100 * high.a, high.c)
  }

  /** The digits of a word, lowest first. */
  datatype Digits = Digits(d0: digit, d1: digit, d2: digit, d3: digit)

  function ValueOf(d: Digits): word {
    d.d0 + 0x10 * d.d1 + 0x100 * d.d2 + 0x1000 * d.d3
  }

  /** The sums of the digits, each with the carry of the one before. */
  datatype Sums = Sums(s0: Step, s1: Step, s2: Step, s3: Step)

  function SumsOf(x: Digits, y: Digits, c: bool): Sums {
    var s0 := AddDigit(x.d0, y.d0, c);
    var s1 := AddDigit(x.d1, y.d1, s0.out);
    var s2 := AddDigit(x.d2, y.d2, s1.out);
    Sums(s0, s1, s2, AddDigit(x.d3, y.d3, s2.out))
  }

  lemma WideByDigits(x: Digits, y: Digits, c: bool)
    ensures var s := SumsOf(x, y, c);
            Wide(Add, ValueOf(x), ValueOf(y), c)
            == LongResult(s.s0.d + 0x10 * s.s1.d + 0x100 * s.s2.d + 0x1000 * s.s3.d, s.s3.out)
  {
    BytesOf(x);
    BytesOf(y);
  }

  lemma BytesOf(x: Digits)
    ensures var w := ValueOf(x);
            && w % 0x100 == x.d0 + 0x10 * x.d1 && w / 0x100 == x.d2 + 0x10 * x.d3
            && w % 0x100 % 16 == x.d0 && w % 0x100 / 16 == x.d1 && w / 0x100 % 16 == x.d2 && w / 0x100 / 16 == x.d3
  {
    var low, high := x.d0 + 0x10 * x.d1, x.d2 + 0x10 * x.d3;
    RemainderOf(ValueOf(x), 0x100, high, low);
    RemainderOf(low, 16, x.d1, x.d0);
    RemainderOf(high, 16, x.d3, x.d2);
  }

  function DigitsOf(w: word): Digits {
    Digits(w % 16, w / 16 % 16, w / 16 / 16 % 16, w / 16 / 16 / 16)
  }

  lemma DigitsOfWord(w: word)
    ensures var d := DigitsOf(w);
            && w == ValueOf(d) && w % 0x10 == d.d0 && w % 0x100 == d.d0 + 0x10 * d.d1
            && w % 0x1000 == d.d0 + 0x10 * d.d1 + 0x100 * d.d2
  {
    var d := DigitsOf(w);
    var r1 := w / 16;
    var r2 := r1 / 16;
    assert w == 0x10 * r1 + d.d0 && r1 == 0x10 * r2 + d.d1 && r2 == 0x10 * d.d3 + d.d2;
    RemainderOf(w, 0x100, r2, d.d0 + 0x10 * d.d1);
    RemainderOf(w, 0x1000, d.d3, d.d0 + 0x10 * d.d1 + 0x100 * d.d2);
  }

  /** The word masked with 0xf, 0xf0, 0xf00 and 0xf000. */
  method Masked(w: word) returns (m0: int, m1: int, m2: int, m3: int)
    ensures var d := DigitsOf(w);
            m0 == d.d0 && m1 == 0x10 * d.d1 && m2 == 0x100 * d.d2 && m3 == 0x1000 * d.d3
  {
    DigitsOfWord(w);
    m0, m1, m2, m3 := w % 0x10, w % 0x100 - w % 0x10, w % 0x1000 - w % 0x100, w - w % 0x1000;
  }

  /** The third and the fourth digit, on top of the value of the lower ones. */
  lemma ThirdDigit(tmp: int, below: byte, x: digit, y: digit, b: bool)
    requires tmp == below + 0x100 * (x + y + Num(b))
    ensures tmp > 0x9ff <==> AddDigit(x, y, b).out
    ensures (if tmp > 0x9ff then tmp + 0x600 else tmp) % 0x1000 == below + 0x100 * AddDigit(x, y, b).d
  {
    var h := x + y + Num(b);
    assert tmp + 0x600 == below + 0x100 * (h + 6);
  }

  lemma FourthDigit(tmp: int, below: int, x: digit, y: digit, b: bool)
    requires 0 <= below < 0x1000 && tmp == below + 0x1000 * (x + y + Num(b))
    ensures var t := if tmp > 0x9fff then tmp + 0x6000 else tmp;
            && (t > 0xffff <==> AddDigit(x, y, b).out)
            && t % 0x1_0000 == below + 0x1000 * AddDigit(x, y, b).d
  {
    var h := x + y + Num(b);
    assert tmp + 0x6000 == below + 0x1000 * (h + 6);
  }

  /** The 16-bit accumulator of the 65816, with `P_DECIMAL` set. */
  class LongAccumulator {
    var c: word
    var carry: bool

    constructor (c: word, carry: bool)
      ensures this.c == c && this.carry == carry
    {
      this.c := c;
      this.carry := carry;
    }

    /** `ADC` of 65816core.c with a 16-bit accumulator */
    method Adc(v: word)
      modifies this
      ensures LongResult(c, carry) == Wide(Add, old(c), v, old(carry))
    {
      ghost var x, y := DigitsOf(c), DigitsOf(v);
      DigitsOfWord(c);
      DigitsOfWord(v);
      WideByDigits(x, y, carry);
      var c0, c1, c2, c3 := Masked(c);
      var v0, v1, v2, v3 := Masked(v);
      SumDigits(x, y, c0, c1, c2, c3, v0, v1, v2, v3);
    }

    /** `tmp` and `tmp2` take turns in holding the sum so far and the next digit. */
    method SumDigits(ghost x: Digits, ghost y: Digits,
                     c0: int, c1: int, c2: int, c3: int, v0: int, v1: int, v2: int, v3: int)
      requires c0 == x.d0 && c1 == 0x10 * x.d1 && c2 == 0x100 * x.d2 && c3 == 0x1000 * x.d3
      requires v0 == y.d0 && v1 == 0x10 * y.d1 && v2 == 0x100 * y.d2 && v3 == 0x1000 * y.d3
      modifies this
      ensures var s := SumsOf(x, y, old(carry));
              && c == s.s0.d + 0x10 * s.s1.d + 0x100 * s.s2.d + 0x1000 * s.s3.d && carry == s.s3.out
    {
      ghost var s := SumsOf(x, y, carry);
      LowSum(x.d0, y.d0, carry);
      var tmp2: int := c0 + v0 + Num(carry);
      var tmp: int := c1 + v1;
      if tmp2 > 9 {
        tmp2 := tmp2 + 6;
        tmp := tmp + 0x10;
      }
      tmp := tmp + tmp2 % 0x10;
      HighSum(tmp, s.s0.d, x.d1, y.d1, s.s0.out);
      tmp2 := c2 + v2;
      if tmp > 0x9f {
        tmp := tmp + 0x60;
        tmp2 := tmp2 + 0x100;
      }
      tmp2 := tmp2 + tmp % 0x100;
      SumHighDigits(s, x, y, tmp2, c3 + v3);
    }

    method SumHighDigits(ghost s: Sums, ghost x: Digits, ghost y: Digits, second: int, top: int)
      requires s.s2 == AddDigit(x.d2, y.d2, s.s1.out) && s.s3 == AddDigit(x.d3, y.d3, s.s2.out)
      requires second == s.s0.d + 0x10 * s.s1.d + 0x100 * (x.d2 + y.d2 + Num(s.s1.out))
      requires top == 0x1000 * (x.d3 + y.d3)
      modifies this
      ensures c == s.s0.d + 0x10 * s.s1.d + 0x100 * s.s2.d + 0x1000 * s.s3.d && carry == s.s3.out
    {
      var tmp2: int := second;
      var tmp: int := top;
      ThirdDigit(tmp2, s.s0.d + 0x10 * s.s1.d, x.d2, y.d2, s.s1.out);
      if tmp2 > 0x9ff {
        tmp2 := tmp2 + 0x600;
        tmp := tmp + 0x1000;
      }
      tmp := tmp + tmp2 % 0x1000;
      FourthDigit(tmp, s.s0.d + 0x10 * s.s1.d + 0x100 * s.s2.d, x.d3, y.d3, s.s2.out);
      if tmp > 0x9fff {
        tmp := tmp + 0x6000;
      }
      carry := tmp > 0xffff;
      c := tmp % 0x1_0000;
    }
  }
}
