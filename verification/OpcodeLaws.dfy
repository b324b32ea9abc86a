/**
 What the instructions of the 6510 compute, in terms of numbers and bits rather than of the source's
 masks: binary addition and subtraction with their overflow flag, comparison, the bitwise operations and
 the rotations. Both cores are meant, since they agree.
 */
module OpcodeLaws {
  import opened Basics
  import C = Core6510
  import Decimal
  import opened DecimalChains
  import opened Mos6510
  import opened Opcodes6510

  /** A byte as a two's complement number. */
  function Signed(b: byte): int {
    if b >= 0x80 then b - 0x100 else b
  }

  lemma TopBit(b: byte)
    ensures Bit7(b) <==> b >= 0x80
  {
  }

  lemma TopBitOf(v: int)
    requires -0x100 <= v < 0x200
    ensures Bit7(v) <==> Low8(v) >= 0x80
  {
  }

  // ---------------------------------------------------------------- arithmetic

  /** Binary ADC: the carry is the ninth bit, V says that the signed sum does not fit, N and Z speak of the
      result. */
  lemma AddMeans(a: byte, v: byte, c: bool)
    ensures var r := SumOf(a, v, c, false);
            && r.a + 0x100 * Num(r.c) == a + v + Num(c)
            && (r.v <==> !(-0x80 <= Signed(a) + Signed(v) + Num(c) < 0x80))
            && (!r.v ==> Signed(r.a) == Signed(a) + Signed(v) + Num(c))
            && r.fn == r.a && r.fz == r.a
  {
    TopBit(a);
    TopBit(v);
    TopBitOf(a + v + Num(c));
  }

  /** Binary SBC: the carry says that nothing is borrowed, V that the signed difference does not fit. */
  lemma SubtractMeans(a: byte, v: byte, c: bool)
    ensures var r := DifferenceOf(a, v, c, false);
            && r.a == a - v - Num(!c) + 0x100 * Num(!r.c)
            && (r.v <==> !(-0x80 <= Signed(a) - Signed(v) - Num(!c) < 0x80))
            && (!r.v ==> Signed(r.a) == Signed(a) - Signed(v) - Num(!c))
            && r.fn == r.a && r.fz == r.a
  {
    TopBit(a);
    TopBit(v);
    TopBitOf(a - v - Num(!c));
  }

  /** On decimal digits, decimal ADC and SBC leave the digits of the sum and of the difference, with the
      carry for what does not fit or had to be borrowed; Z is about the binary sum. */
  lemma DecimalMeans(a: byte, v: byte, c: bool)
    requires IsBcd(a) && IsBcd(v)
    ensures var r := SumOf(a, v, c, true);
            && IsBcd(r.a) && Tens(r.a) + 100 * Num(r.c) == Tens(a) + Tens(v) + Num(c)
            && (r.fz == 0 <==> (a + v + Num(c)) % 0x100 == 0)
    ensures var r := DifferenceOf(a, v, c, true);
            && IsBcd(r.a) && Tens(r.a) + Tens(v) + Num(!c) == Tens(a) + 100 * Num(!r.c)
  {
    AddTens(a, v, c);
    SubTens(a, v, c);
    Borrows(a, v, c);
    LowIsRemainder(a + v + Num(c));
  }

  /** The decimal borrow is the binary one. */
  lemma Borrows(a: byte, v: byte, c: bool)
    ensures Decimal.Sub(a, v, c).c <==> a - v - Num(!c) >= 0
  {
    Decimal.LowDifference(a, v, c);
  }

  /** On any two bytes, decimal digits or not: a digit that comes out above nine is adjusted by six and carries once. */
  lemma AddedDigits(a: byte, v: byte, c: bool)
    ensures var r, low := SumOf(a, v, c, true), a % 16 + v % 16 + Num(c);
            var high := a / 16 + v / 16 + Num(low > 9);
            && r.a % 16 == (if low > 9 then low + 6 else low) % 16
            && r.a / 16 == (if high > 9 then high + 6 else high) % 16 && (r.c <==> high > 9)
  {
    var low := Decimal.AddDigit(a % 16, v % 16, c);
    var high := Decimal.AddDigit(a / 16, v / 16, low.out);
    Decimal.LowSum(a % 16, v % 16, c);
    Decimal.LowSum(a / 16, v / 16, low.out);
    RemainderOf(low.d + 16 * high.d, 16, high.d, low.d);
  }

  /** A digit that comes out below zero is adjusted by six downwards and borrows once. */
  lemma SubtractedDigits(a: byte, v: byte, c: bool)
    ensures var r, low := DifferenceOf(a, v, c, true), a % 16 - v % 16 - Num(!c);
            var high := a / 16 - v / 16 - Num(low < 0);
            && r.a % 16 == (if low < 0 then low - 6 else low) % 16
            && r.a / 16 == (if high < 0 then high - 6 else high) % 16 && (r.c <==> high >= 0)
  {
    var low := Decimal.SubDigit(a % 16, v % 16, !c);
    var high := Decimal.SubDigit(a / 16, v / 16, low.out);
    Borrows(a, v, c);
    OneDifference(a % 16, v % 16, !c);
    OneDifference(a / 16, v / 16, low.out);
    RemainderOf(low.d + 16 * high.d, 16, high.d, low.d);
  }

  lemma OneDifference(x: Decimal.digit, y: Decimal.digit, b: bool)
    ensures var t, s := x - y - Num(b), Decimal.SubDigit(x, y, b);
            s.d == (if t < 0 then t - 6 else t) % 16 && (s.out <==> t < 0)
  {
  }

  /** A digit as a two's complement number */
  function SignedDigit(d: nat): int {
    if d >= 8 then d - 16 else d
  }

  /** N and V of the decimal ADC are about the high digits before they are adjusted, with the carry of the adjusted low
      ones. */
  lemma DecimalFlags(a: byte, v: byte, c: bool)
    ensures var r, carry := SumOf(a, v, c, true), a % 16 + v % 16 + Num(c) > 9;
            && (r.fn >= 0x80 <==> (a / 16 + v / 16 + Num(carry)) % 16 >= 8)
            && (r.v <==> !(-8 <= SignedDigit(a / 16) + SignedDigit(v / 16) + Num(carry) < 8))
  {
    var low := Decimal.AddDigit(a % 16, v % 16, c);
    var h := a / 16 + v / 16 + Num(low.out);
    ByteSign(a);
    ByteSign(v);
    HighDigitBit(low.d, h);
    DigitOverflow(a / 16, v / 16, low.out);
    DecimalFlagsAre(a, v, c);
    Decimal.LowSum(a % 16, v % 16, c);
  }

  lemma DecimalFlagsAre(a: byte, v: byte, c: bool)
    ensures var r, tmp := SumOf(a, v, c, true), Opcodes6510.LowAdjusted(a, v, c);
            (r.fn >= 0x80 <==> Bit7(tmp)) && (r.v <==> Bit7(a) != Bit7(tmp) && Bit7(a) == Bit7(v))
  {
  }

  lemma ByteSign(a: byte)
    ensures Bit7(a) <==> a / 16 >= 8
  {
    TopBit(a);
  }

  lemma DigitOverflow(x: nat, y: nat, carry: bool)
    requires x < 16 && y < 16
    ensures var h := x + y + Num(carry);
            (x >= 8) != (h % 16 >= 8) && (x >= 8) == (y >= 8)
            <==> !(-8 <= SignedDigit(x) + SignedDigit(y) + Num(carry) < 8)
  {
  }

  /** The flags of the decimal SBC are those of the binary one. */
  lemma BinaryFlags(a: byte, v: byte, c: bool)
    ensures DifferenceOf(a, v, c, true).(a := 0) == DifferenceOf(a, v, c, false).(a := 0)
  {
  }

  lemma HighDigitBit(d: nat, h: nat)
    requires d < 16 && h < 32
    ensures Bit7(d + 16 * h) <==> h % 16 >= 8
  {
    assert (d + 16 * h) / 0x80 == h / 8;
  }

  /** SBC undoes ADC, carry included. */
  lemma AddThenSubtract(a: byte, v: byte, c: bool)
    ensures var r := SumOf(a, v, c, false);
            DifferenceOf(r.a, v, !c, false).a == a && DifferenceOf(r.a, v, !c, false).c == !r.c
  {
  }

  /** CMP, CPX and CPY: C, Z and N say greater or equal, equal, and bit 7 of the difference; they are the
      flags that SEC and a binary SBC leave. */
  lemma CompareMeans(s: Cpu, r: byte, v: byte)
    ensures var t := Compare(s, r, v);
            && (t.p.c <==> r >= v) && (Zero(t) <==> r == v) && (Sign(t) <==> (r - v) % 0x100 >= 0x80)
    ensures var t, d := Compare(s, r, v), DifferenceOf(r, v, true, false);
            && t.p.c == d.c && t.fn == d.fn && t.fz == d.fz
            && t == s.(p := s.p.(c := t.p.c), fn := t.fn, fz := t.fz)
  {
    UnsignedDifference(r, v);
    LowIsRemainder(r - v);
  }

  lemma UnsignedDifference(r: byte, v: byte)
    ensures Unsigned(r - v) == if r >= v then r - v else 0x1_0000_0000 + r - v
    ensures Unsigned(r - v) % 0x100 == (r - v) % 0x100 == if r >= v then r - v else 0x100 + r - v
  {
  }

  // ---------------------------------------------------------------- bits

  lemma {:induction false} CommonBits(a: nat, b: nat, k: nat)
    ensures BitOf(Common(a, b), k) <==> BitOf(a, k) && BitOf(b, k)
  {
    if a == 0 || b == 0 {
      ZeroBits(k);
    } else if k > 0 {
      var low := if a % 2 == 1 && b % 2 == 1 then 1 else 0;
      assert Common(a, b) == 2 * Common(a / 2, b / 2) + low;
      assert Common(a, b) / 2 == Common(a / 2, b / 2);
      CommonBits(a / 2, b / 2, k - 1);
    }
  }

  lemma {:induction false} ZeroBits(k: nat)
    ensures !BitOf(0, k)
  {
    if k > 0 {
      ZeroBits(k - 1);
    }
  }

  /** The complement of a number of `n` bits, of which `top` is the largest. */
  lemma {:induction false} ComplementBits(a: nat, k: nat, n: nat, top: nat)
    requires k < n && top == Ones(n) && a <= top
    ensures BitOf(top - a, k) <==> !BitOf(a, k)
  {
    assert top == 2 * Ones(n - 1) + 1;
    if k > 0 {
      assert (top - a) / 2 == Ones(n - 1) - a / 2;
      ComplementBits(a / 2, k - 1, n - 1, Ones(n - 1));
    }
  }

  function Ones(n: nat): nat {
    if n == 0 then 0 else 2 * Ones(n - 1) + 1
  }

  lemma EightOnes()
    ensures Ones(8) == 0xff
  {
    assert Ones(4) == 0xf;
  }

  /** `&` and `|` work bit by bit. */
  lemma BitwiseMeans(a: byte, b: byte, k: nat)
    requires k < 8
    ensures BitOf(BitAnd(a, b), k) <==> BitOf(a, k) && BitOf(b, k)
    ensures BitOf(BitOr(a, b), k) <==> BitOf(a, k) || BitOf(b, k)
  {
    var both := Common(0xff - a, 0xff - b);
    EightOnes();
    CommonBits(a, b, k);
    CommonBits(0xff - a, 0xff - b, k);
    ComplementBits(a, k, 8, 0xff);
    ComplementBits(b, k, 8, 0xff);
    ComplementBits(both, k, 8, 0xff);
  }

  /** A number by its lowest bit and the others */
  lemma LowestBit(v: nat, x: nat, bit: bool)
    requires v == 2 * x + Num(bit)
    ensures v / 2 == x && (v % 2 == 1 <==> bit)
  {
  }

  lemma CommonUnfolds(a: nat, b: nat)
    ensures Common(a, b) == 2 * Common(a / 2, b / 2) + Num(a % 2 == 1 && b % 2 == 1)
  {
    if a == 0 {
      assert Common(0, b / 2) == 0;
    } else if b == 0 {
      assert Common(a / 2, 0) == 0;
    }
  }

  lemma ComplementHalves(a: nat, top: nat, t: nat)
    requires a <= top == 2 * t + 1
    ensures a / 2 <= t && (top - a) / 2 == t - a / 2 && ((top - a) % 2 == 1 <==> a % 2 == 0)
  {
    var x, bit := a / 2, a % 2 == 1;
    assert a == 2 * x + Num(bit);
    LowestBit(top - a, t - x, !bit);
  }

  lemma ComplementsUnfold(a: nat, b: nat, top: nat, t: nat)
    requires a <= top && b <= top && top == 2 * t + 1
    ensures a / 2 <= t && b / 2 <= t
    ensures Common(top - a, top - b) == 2 * Common(t - a / 2, t - b / 2) + Num(a % 2 == 0 && b % 2 == 0)
  {
    ComplementHalves(a, top, t);
    ComplementHalves(b, top, t);
    CommonUnfolds(top - a, top - b);
  }

  /** What is in one of two numbers and what is in both add up. */
  lemma {:induction false} CommonOfComplements(a: nat, b: nat, n: nat, top: nat)
    requires top == Ones(n) && a <= top && b <= top
    ensures Common(top - a, top - b) + a + b == top + Common(a, b)
  {
    if n > 0 {
      var t := Ones(n - 1);
      assert top == 2 * t + 1;
      ComplementsUnfold(a, b, top, t);
      CommonOfComplements(a / 2, b / 2, n - 1, t);
      CommonUnfolds(a, b);
      AddUp(a, b, top, t, Common(t - a / 2, t - b / 2), Common(a / 2, b / 2));
    }
  }

  lemma AddUp(a: nat, b: nat, top: nat, t: nat, none: nat, both: nat)
    requires top == 2 * t + 1 && none + a / 2 + b / 2 == t + both
    ensures 2 * none + Num(a % 2 == 0 && b % 2 == 0) + a + b == top + 2 * both + Num(a % 2 == 1 && b % 2 == 1)
  {
    assert a == 2 * (a / 2) + a % 2 && b == 2 * (b / 2) + b % 2;
  }

  /** The sum without what is in both, twice */
  lemma {:induction false} DifferingBits(a: nat, b: nat, k: nat)
    ensures a + b - 2 * Common(a, b) >= 0
    ensures BitOf(a + b - 2 * Common(a, b), k) <==> BitOf(a, k) != BitOf(b, k)
  {
    if a == 0 || b == 0 {
      ZeroBits(k);
    } else {
      var x := a / 2 + b / 2 - 2 * Common(a / 2, b / 2);
      DifferingBits(a / 2, b / 2, if k == 0 then 0 else k - 1);
      CommonUnfolds(a, b);
      assert a == 2 * (a / 2) + Num(a % 2 == 1) && b == 2 * (b / 2) + Num(b % 2 == 1);
      LowestBit(a + b - 2 * Common(a, b), x, (a % 2 == 1) != (b % 2 == 1));
    }
  }

  lemma XorIs(a: byte, b: byte)
    ensures BitXor(a, b) == a + b - 2 * Common(a, b)
  {
    EightOnes();
    CommonOfComplements(a, b, 8, 0xff);
  }

  /** `^` is on where the two bytes differ. */
  lemma XorMeans(a: byte, b: byte, k: nat)
    requires k < 8
    ensures BitOf(BitXor(a, b), k) <==> BitOf(a, k) != BitOf(b, k)
  {
    XorIs(a, b);
    DifferingBits(a, b, k);
  }

  /** Numbers of `n` bits with the same bits are the same. */
  lemma {:induction false} SameBits(u: nat, v: nat, n: nat)
    requires u <= Ones(n) && v <= Ones(n)
    requires forall k :: 0 <= k < n ==> BitOf(u, k) == BitOf(v, k)
    ensures u == v
  {
    if n > 0 {
      assert BitOf(u, 0) == BitOf(v, 0);
      forall k | 0 <= k < n - 1
        ensures BitOf(u / 2, k) == BitOf(v / 2, k)
      {
        assert BitOf(u, k + 1) == BitOf(v, k + 1);
      }
      SameBits(u / 2, v / 2, n - 1);
    }
  }

  lemma XorTwice(a: byte, v: byte)
    ensures BitXor(BitXor(a, v), v) == a
  {
    var once := BitXor(a, v);
    forall k | 0 <= k < 8
      ensures BitOf(BitXor(once, v), k) == BitOf(a, k)
    {
      XorMeans(a, v, k);
      XorMeans(once, v, k);
    }
    EightOnes();
    SameBits(BitXor(once, v), a, 8);
  }

  /** EOR twice with the same operand restores A. */
  lemma EorTwice(s: Cpu, v: byte)
    ensures C.ExecRead(C.ExecRead(s, Eor, v), Eor, v).a == s.a
  {
    XorTwice(s.a, v);
  }

  /** Two numbers have no bit in common exactly when `&` gives zero. */
  lemma NoCommonBits(a: nat, b: nat)
    ensures Common(a, b) == 0 <==> forall k: nat :: !(BitOf(a, k) && BitOf(b, k))
  {
    if Common(a, b) != 0 {
      var k := SomeBit(Common(a, b));
      CommonBits(a, b, k);
    } else {
      forall k: nat
        ensures !(BitOf(a, k) && BitOf(b, k))
      {
        ZeroBits(k);
        CommonBits(a, b, k);
      }
    }
  }

  lemma {:induction false} SomeBit(v: nat) returns (k: nat)
    requires v > 0
    ensures BitOf(v, k)
  {
    if v % 2 == 1 {
      k := 0;
    } else {
      var j := SomeBit(v / 2);
      k := j + 1;
    }
  }

  // ---------------------------------------------------------------- flags and jumps

  /** BIT: N and V are bits 7 and 6 of the operand, Z says that it has no bit in common with A. */
  lemma TestBitsMeans(s: Cpu, v: byte)
    ensures var t := TestBits(s, v);
            && (Sign(t) <==> v >= 0x80) && (t.p.v <==> v % 0x80 >= 0x40)
            && (Zero(t) <==> forall k: nat :: !(BitOf(v, k) && BitOf(s.a, k)))
            && t == s.(p := s.p.(v := t.p.v), fn := t.fn, fz := t.fz)
  {
    NoCommonBits(v, s.a);
  }

  /** A branch goes to the signed distance from the next instruction, or to that, modulo 2 to the 16. */
  lemma BranchMeans(s: Cpu, taken: bool)
    ensures var t := BranchTo(s, taken);
            && (t.pc - (s.pc + 2 + if taken then Signed(P1(s)) else 0)) % 0x1_0000 == 0
            && t == s.(pc := t.pc)
  {
    LowIsRemainder(s.pc + 2);
    LowIsRemainder(Low16(s.pc + 2) + Signed(P1(s)));
  }

  // ---------------------------------------------------------------- rotations

  /** ROL and ROR are inverse on the nine bits of accumulator and carry, in both orders. */
  lemma RotateBack(s: Cpu)
    ensures var t := C.ExecImplied(C.ExecImplied(s, RolA), RorA); t.a == s.a && t.p.c == s.p.c
    ensures var t := C.ExecImplied(C.ExecImplied(s, RorA), RolA); t.a == s.a && t.p.c == s.p.c
  {
  }

  /** Likewise on a byte in memory: ROR of what ROL has written gives back the byte and the carry. */
  lemma RotateBackInMemory(s: Cpu, v: byte)
    ensures var l := C.ExecModify(s, Rol, v);
            var r := C.ExecModify(l.s, Ror, Low8(l.v));
            Low8(r.v) == v && r.s.p.c == s.p.c
  {
  }

  /** ARR in binary mode is AND and then ROR A, but for the flags: C is bit 6 of the result, and V tells
      whether bits 6 and 5 differ. */
  lemma AndRotateMeans(s: Cpu, v: byte)
    requires !s.p.d
    ensures var t := AndRotate(s, v);
            var u := C.ExecImplied(C.ExecRead(s, And, v), RorA);
            && t.a == u.a && t.fn == u.fn && t.fz == u.fz
            && (t.p.c <==> BitOf(t.a, 6)) && (t.p.v <==> BitOf(t.a, 6) != BitOf(t.a, 5))
  {
    AndRotatedBits(s, v);
    HighBits(AndRotate(s, v).a);
  }

  lemma AndRotatedBits(s: Cpu, v: byte)
    requires !s.p.d
    ensures var t := AndRotate(s, v);
            var u := C.ExecImplied(C.ExecRead(s, And, v), RorA);
            && t.a == u.a && t.fn == u.fn && t.fz == u.fz
            && (t.p.c <==> Bit6(t.a)) && (t.p.v <==> Bit6(t.a) != Bit5(t.a))
  {
  }

  /** ARR in decimal mode: N is the carry that came in, Z speaks of the rotated byte, V says whether the rotation has
      changed bit 6. */
  lemma AndRotateDecimalFlags(s: Cpu, v: byte)
    requires s.p.d
    ensures var t, both := AndRotate(s, v), BitAnd(s.a, v);
            var half := both / 2 + 0x80 * Num(s.p.c);
            && (t.p.v <==> half / 0x40 % 2 != both / 0x40 % 2) && Sign(t) == s.p.c && (Zero(t) <==> half == 0)
            && t == s.(a := t.a, p := s.p.(c := t.p.c, v := t.p.v), fn := t.fn, fz := t.fz)
  {
  }

  /** Each digit of what A and the operand have in common that is above five, its lowest bit counted twice, is adjusted
      by six in the rotated byte, and C says so of the high one. */
  lemma AndRotateDecimal(s: Cpu, v: byte)
    requires s.p.d
    ensures var t, both := AndRotate(s, v), BitAnd(s.a, v);
            var half, low, high := both / 2 + 0x80 * Num(s.p.c), both % 16, both / 16;
            && t.a % 16 == (half % 16 + if low + low % 2 > 5 then 6 else 0) % 16
            && t.a / 16 == (half / 16 + if high + high % 2 > 5 then 6 else 0) % 16
            && (t.p.c <==> high + high % 2 > 5)
  {
    var both := BitAnd(s.a, v);
    var half: byte := both / 2 + 0x80 * Num(s.p.c);
    var fixLow, fixHigh := both % 16 + both % 2 > 5, both / 16 + both / 16 % 2 > 5;
    HighTest(both);
    AndRotateIs(s, v, half, fixLow, fixHigh);
    LowDigitAdjusted(half, fixLow);
    HighDigitAdjusted(WithLow(half, fixLow), fixHigh);
  }

  /** A byte with its low digit adjusted by six, or its high one */
  function WithLow(r: byte, fix: bool): byte {
    if fix then r - r % 16 + (r + 6) % 16 else r
  }

  function WithHigh(r: byte, fix: bool): byte {
    if fix then r % 16 + (r / 16 + 6) % 16 * 16 else r
  }

  lemma AndRotateIs(s: Cpu, v: byte, half: byte, fixLow: bool, fixHigh: bool)
    requires s.p.d
    requires var both := BitAnd(s.a, v);
             half == both / 2 + 0x80 * Num(s.p.c)
             && fixLow == (both % 16 + both % 2 > 5) && fixHigh == ((both - both % 16) + 0x10 * (both / 16 % 2) > 0x50)
    ensures var t := AndRotate(s, v);
            t.p.c == fixHigh && t.a == WithHigh(WithLow(half, fixLow), fixHigh)
  {
    HighSum(WithLow(half, fixLow));
  }

  /** Adding six to the high digit, masked */
  lemma HighSum(r: byte)
    ensures Low8(r as int - r % 16 + 0x60) == (r / 16 + 6) % 16 * 16
  {
    var h := r / 16;
    var high := if h + 6 >= 16 then h + 6 - 16 else h + 6;
    assert r as int - r % 16 == 16 * h;
    RemainderOf(h + 6, 16, if h + 6 >= 16 then 1 else 0, high);
  }

  lemma HighTest(both: byte)
    ensures (both - both % 16) + 0x10 * (both / 16 % 2) > 0x50 <==> both / 16 + both / 16 % 2 > 5
    ensures both % 16 % 2 == both % 2
  {
  }

  lemma LowDigitAdjusted(r: byte, fix: bool)
    ensures WithLow(r, fix) % 16 == (r % 16 + if fix then 6 else 0) % 16 && WithLow(r, fix) / 16 == r / 16
  {
    var h, l := r / 16, r % 16;
    var low := if l + 6 >= 16 then l + 6 - 16 else l + 6;
    assert r + 6 == 16 * h + (l + 6);
    RemainderOf(r + 6, 16, if l + 6 >= 16 then h + 1 else h, low);
    RemainderOf(16 * h + low, 16, h, low);
  }

  lemma HighDigitAdjusted(r: byte, fix: bool)
    ensures WithHigh(r, fix) % 16 == r % 16 && WithHigh(r, fix) / 16 == (r / 16 + if fix then 6 else 0) % 16
  {
    var h, l := r / 16, r % 16;
    var high := (h + 6) % 16;
    RemainderOf(l + 16 * high, 16, high, l);
    RemainderOf(h, 16, 0, h);
  }

  // ---------------------------------------------------------------- undocumented instructions

  /** The two instructions whose names are in the name of an undocumented one. */
  function PartsOf(m: ModifyOp): Option<(ModifyOp, ReadOp)> {
    match m
    case Slo => Some((Asl, Ora))
    case Rla => Some((Rol, And))
    case Sre => Some((Lsr, Eor))
    case Rra => Some((Ror, Adc))
    case Dcp => Some((Dec, Cmp))
    case Isb => Some((Inc, Sbc))
    case _ => None
  }

  /** A read-modify-write instruction, and then one that reads what it has written. */
  function Then(s: Cpu, m: ModifyOp, r: ReadOp, v: byte): (Cpu, byte) {
    var t := C.ExecModify(s, m, v);
    (C.ExecRead(t.s, r, Low8(t.v)), Low8(t.v))
  }

  /** The undocumented combinations leave the registers, the flags and the byte in memory that the two
      documented instructions in a row leave. */
  lemma Combined(s: Cpu, m: ModifyOp, v: byte)
    requires PartsOf(m).Some?
    ensures var t := C.ExecModify(s, m, v);
            Then(s, PartsOf(m).value.0, PartsOf(m).value.1, v) == (t.s, Low8(t.v))
  {
    match m {
      case Rra => RotateThenAdd(s, v);
      case Isb => SubtractSetsNZ(s, Low8(v + 1), Low8(v + 1));
      case Dcp => DecrementThenCompare(s, v);
      case _ =>
    }
  }

  lemma RotateThenAdd(s: Cpu, v: byte)
    ensures var t := C.ExecModify(s, Rra, v); Then(s, Ror, Adc, v) == (t.s, Low8(t.v))
  {
    var r := v + 0x100 * Carry(s);
    HalfWithCarry(v, Carry(s));
    var sc := SetC(s, v % 2 == 1);
    assert C.ExecModify(s, Ror, v) == C.Modified(SetNZ(sc, r / 2), r / 2);
    assert C.ExecModify(s, Rra, v) == C.Modified(AddTo(sc, r / 2), r / 2);
    AddSetsNZ(sc, r / 2, r / 2);
  }

  /** DCP compares with `>=`, CMP with an unsigned difference. */
  lemma DecrementThenCompare(s: Cpu, v: byte)
    ensures var t := C.ExecModify(s, Dcp, v); Then(s, Dec, Cmp, v) == (t.s, Low8(t.v))
  {
    UnsignedDifference(s.a, Low8(v - 1));
  }

  /** SBC sets N and Z whatever they were. */
  lemma SubtractSetsNZ(s: Cpu, r: int, v: byte)
    ensures SubtractFrom(SetNZ(s, r), v) == SubtractFrom(s, v)
  {
  }
}
