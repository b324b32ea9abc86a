/**
 Decimal arithmetic on numbers of any length: chains of ADC or SBC over bytes, lowest first, the carry
 going from each to the next.
 */
module DecimalChains {
  import opened Basics
  import opened Decimal

  // ---------------------------------------------------------------- numbers

  /** Both digits are at most nine. */
  predicate IsBcd(b: byte) {
    b % 16 <= 9 && b / 16 <= 9
  }

  ghost predicate AllBcd(bs: seq<byte>) {
    forall i :: 0 <= i < |bs| ==> IsBcd(bs[i])
  }

  function Tens(b: byte): nat {
    b % 16 + 10 * (b / 16)
  }

  /** The number whose pairs of digits are `bs`, lowest first. */
  function Number(bs: seq<byte>): nat {
    if bs == [] then 0 else Tens(bs[0]) + 100 * Number(bs[1..])
  }

  /** 100 to the power of `n` */
  function Hundreds(n: nat): nat {
    if n == 0 then 1 else 100 * Hundreds(n - 1)
  }

  /** The weight of a carry. */
  function When(b: bool, v: nat): nat {
    if b then v else 0
  }

  // ---------------------------------------------------------------- chains

  datatype Chained = Chained(digits: seq<byte>, c: bool)

  /** LDA, then ADC or SBC, then STA, for each byte; `c` is the carry at the start. */
  function Chain(f: Adder, xs: seq<byte>, ys: seq<byte>, c: bool): (r: Chained)
    requires |xs| == |ys|
    ensures |r.digits| == |xs|
  {
    if xs == [] then Chained([], c)
    else
      var r := f(xs[0], ys[0], c);
      var rest := Chain(f, xs[1..], ys[1..], r.c);
      Chained([r.a] + rest.digits, rest.c)
  }

  // ---------------------------------------------------------------- one byte

  /** On bytes of decimal digits, `f` adds. */
  ghost predicate AddsAt(f: Adder, a: byte, v: byte, c: bool) {
    var r := f(a, v, c);
    IsBcd(r.a) && Tens(r.a) + When(r.c, 100) == Tens(a) + Tens(v) + When(c, 1)
  }

  ghost predicate Adds(f: Adder) {
    forall a, v, c :: IsBcd(a) && IsBcd(v) ==> AddsAt(f, a, v, c)
  }

  ghost predicate SubtractsAt(f: Adder, a: byte, v: byte, c: bool) {
    var r := f(a, v, c);
    IsBcd(r.a) && Tens(r.a) + Tens(v) + When(!c, 1) == Tens(a) + When(!r.c, 100)
  }

  ghost predicate Subtracts(f: Adder) {
    forall a, v, c :: IsBcd(a) && IsBcd(v) ==> SubtractsAt(f, a, v, c)
  }

  /** One digit of a sum and of a difference. */
  lemma DecimalDigit(x: digit, y: digit, c: bool)
    requires x <= 9 && y <= 9
    ensures var s := AddDigit(x, y, c); s.d <= 9 && s.d + When(s.out, 10) == x + y + When(c, 1)
    ensures var s := SubDigit(x, y, c); s.d <= 9 && s.d + y + When(c, 1) == x + When(s.out, 10)
  {
  }

  lemma AddTens(a: byte, v: byte, c: bool)
    requires IsBcd(a) && IsBcd(v)
    ensures AddsAt(Add, a, v, c)
  {
    var low := AddDigit(a % 16, v % 16, c);
    var high := AddDigit(a / 16, v / 16, low.out);
    DecimalDigit(a % 16, v % 16, c);
    DecimalDigit(a / 16, v / 16, low.out);
    Nibbles(Add(a, v, c).a, low.d, high.d);
  }

  lemma SubTens(a: byte, v: byte, c: bool)
    requires IsBcd(a) && IsBcd(v)
    ensures SubtractsAt(Sub, a, v, c)
  {
    var low := SubDigit(a % 16, v % 16, !c);
    var high := SubDigit(a / 16, v / 16, low.out);
    DecimalDigit(a % 16, v % 16, !c);
    DecimalDigit(a / 16, v / 16, low.out);
    Nibbles(Sub(a, v, c).a, low.d, high.d);
  }

  /** The addition of all three cores and both ways to subtract are correct on decimal digits. */
  lemma CoresAreDecimal()
    ensures Adds(Add) && Subtracts(Sub) && Subtracts(SubCmos)
  {
    forall a, v, c | IsBcd(a) && IsBcd(v)
      ensures AddsAt(Add, a, v, c) && SubtractsAt(Sub, a, v, c) && SubtractsAt(SubCmos, a, v, c)
    {
      AddTens(a, v, c);
      SubTens(a, v, c);
      CmosAgrees(a, v, c);
    }
  }

  // ---------------------------------------------------------------- any number of bytes

  lemma {:induction false} AddChainNumber(f: Adder, xs: seq<byte>, ys: seq<byte>, c: bool)
    requires Adds(f) && |xs| == |ys| && AllBcd(xs) && AllBcd(ys)
    ensures var r := Chain(f, xs, ys, c);
            && AllBcd(r.digits)
            && Number(r.digits) + When(r.c, Hundreds(|xs|)) == Number(xs) + Number(ys) + When(c, 1)
  {
    if xs != [] {
      var r := f(xs[0], ys[0], c);
      var rest := Chain(f, xs[1..], ys[1..], r.c);
      assert AddsAt(f, xs[0], ys[0], c);
      AddChainNumber(f, xs[1..], ys[1..], r.c);
      assert ([r.a] + rest.digits)[1..] == rest.digits;
    }
  }

  lemma {:induction false} SubChainNumber(f: Adder, xs: seq<byte>, ys: seq<byte>, c: bool)
    requires Subtracts(f) && |xs| == |ys| && AllBcd(xs) && AllBcd(ys)
    ensures var r := Chain(f, xs, ys, c);
            && AllBcd(r.digits)
            && Number(r.digits) + Number(ys) + When(!c, 1) == Number(xs) + When(!r.c, Hundreds(|xs|))
  {
    if xs != [] {
      var r := f(xs[0], ys[0], c);
      var rest := Chain(f, xs[1..], ys[1..], r.c);
      assert SubtractsAt(f, xs[0], ys[0], c);
      SubChainNumber(f, xs[1..], ys[1..], r.c);
      assert ([r.a] + rest.digits)[1..] == rest.digits;
    }
  }

  lemma {:induction false} NumberBound(bs: seq<byte>)
    requires AllBcd(bs)
    ensures Number(bs) < Hundreds(|bs|)
  {
    if bs != [] {
      NumberBound(bs[1..]);
    }
  }

  /** Different digits are different numbers. */
  lemma {:induction false} NumberInjective(xs: seq<byte>, ys: seq<byte>)
    requires |xs| == |ys| && AllBcd(xs) && AllBcd(ys) && Number(xs) == Number(ys)
    ensures xs == ys
  {
    if xs != [] {
      TensInjective(xs[0], Number(xs[1..]), ys[0], Number(ys[1..]));
      NumberInjective(xs[1..], ys[1..]);
      assert xs == [xs[0]] + xs[1..] && ys == [ys[0]] + ys[1..];
    }
  }

  lemma TensInjective(a: byte, m: nat, b: byte, n: nat)
    requires IsBcd(a) && IsBcd(b) && Tens(a) + 100 * m == Tens(b) + 100 * n
    ensures a == b && m == n
  {
    var a0, a1, b0, b1 := a % 16, a / 16, b % 16, b / 16;
    assert a == 16 * a1 + a0 && b == 16 * b1 + b0;
    TwoDigits(a0, a1, m, b0, b1, n);
  }

  lemma TwoDigits(a0: nat, a1: nat, m: nat, b0: nat, b1: nat, n: nat)
    requires a0 <= 9 && a1 <= 9 && b0 <= 9 && b1 <= 9
    requires a0 + 10 * a1 + 100 * m == b0 + 10 * b1 + 100 * n
    ensures a0 == b0 && a1 == b1 && m == n
  {
  }

  /** CLC, then `n` ADCs: the digits of the sum, and the carry is what does not fit into 100 to the `n`. */
  lemma ChainAdds(f: Adder, xs: seq<byte>, ys: seq<byte>)
    requires Adds(f) && |xs| == |ys| && AllBcd(xs) && AllBcd(ys)
    ensures var r := Chain(f, xs, ys, false);
            && AllBcd(r.digits) && Number(r.digits) < Hundreds(|xs|)
            && Number(r.digits) + When(r.c, Hundreds(|xs|)) == Number(xs) + Number(ys)
  {
    AddChainNumber(f, xs, ys, false);
    NumberBound(Chain(f, xs, ys, false).digits);
  }

  /** In other words, remainder and quotient of the sum. */
  lemma ChainAddsModulo(f: Adder, xs: seq<byte>, ys: seq<byte>, sum: nat, m: nat)
    requires Adds(f) && |xs| == |ys| && AllBcd(xs) && AllBcd(ys)
    requires sum == Number(xs) + Number(ys) && m == Hundreds(|xs|)
    ensures m > 0
    ensures Number(Chain(f, xs, ys, false).digits) == sum % m
    ensures When(Chain(f, xs, ys, false).c, 1) == sum / m
  {
    ChainAdds(f, xs, ys);
    var r := Chain(f, xs, ys, false);
    if r.c {
      RemainderOf(sum, m, 1, Number(r.digits));
    } else {
      RemainderOf(sum, m, 0, Number(r.digits));
    }
  }

  /** SEC, then `n` SBCs: the digits of the difference modulo 100 to the `n`, and the carry is set
      exactly when nothing had to be borrowed. */
  lemma ChainSubtracts(f: Adder, xs: seq<byte>, ys: seq<byte>)
    requires Subtracts(f) && |xs| == |ys| && AllBcd(xs) && AllBcd(ys)
    ensures var r := Chain(f, xs, ys, true);
            && AllBcd(r.digits)
            && (r.c <==> Number(xs) >= Number(ys))
            && Number(r.digits) == Number(xs) - Number(ys) + When(!r.c, Hundreds(|xs|))
  {
    var r := Chain(f, xs, ys, true);
    SubChainNumber(f, xs, ys, true);
    NumberBound(r.digits);
    NumberBound(xs);
    NumberBound(ys);
  }

  /** Adding a number and then subtracting it, on any two of the cores, is the identity, also when the
      sum does not fit. */
  lemma AddThenSubtract(f: Adder, g: Adder, xs: seq<byte>, ys: seq<byte>)
    requires Adds(f) && Subtracts(g) && |xs| == |ys| && AllBcd(xs) && AllBcd(ys)
    ensures var sum := Chain(f, xs, ys, false);
            Chain(g, sum.digits, ys, true) == Chained(xs, !sum.c)
  {
    var sum := Chain(f, xs, ys, false);
    AddChainNumber(f, xs, ys, false);
    ChainSubtracts(g, sum.digits, ys);
    NumberBound(xs);
    NumberBound(ys);
    NumberBound(sum.digits);
    NumberInjective(Chain(g, sum.digits, ys, true).digits, xs);
  }

  // ---------------------------------------------------------------- sixteen bits at a time

  datatype WideChained = WideChained(words: seq<word>, c: bool)

  function WideChain(f: Adder, xs: seq<word>, ys: seq<word>, c: bool): (r: WideChained)
    requires |xs| == |ys|
    ensures |r.words| == |xs|
  {
    if xs == [] then WideChained([], c)
    else
      var r := Wide(f, xs[0], ys[0], c);
      var rest := WideChain(f, xs[1..], ys[1..], r.c);
      WideChained([r.w] + rest.words, rest.c)
  }

  /** The bytes of the words, low byte first. */
  function Bytes(ws: seq<word>): (bs: seq<byte>)
    ensures |bs| == 2 * |ws|
  {
    if ws == [] then [] else [ws[0] % 0x100, ws[0] / 0x100] + Bytes(ws[1..])
  }

  /** With a 16-bit accumulator, `n` ADCs do what 2n do with an 8-bit one, whatever the digits. */
  lemma {:induction false} WideChainIsChain(f: Adder, xs: seq<word>, ys: seq<word>, c: bool)
    requires |xs| == |ys|
    ensures var r := WideChain(f, xs, ys, c);
            Chain(f, Bytes(xs), Bytes(ys), c) == Chained(Bytes(r.words), r.c)
  {
    if xs != [] {
      var r := Wide(f, xs[0], ys[0], c);
      var rest := WideChain(f, xs[1..], ys[1..], r.c);
      WideChainIsChain(f, xs[1..], ys[1..], r.c);
      ChainTwo(f, xs[0] % 0x100, xs[0] / 0x100, Bytes(xs[1..]), ys[0] % 0x100, ys[0] / 0x100, Bytes(ys[1..]), c);
      assert ([r.w] + rest.words)[1..] == rest.words;
    }
  }

  lemma ChainOne(f: Adder, x: byte, xs: seq<byte>, y: byte, ys: seq<byte>, c: bool)
    requires |xs| == |ys|
    ensures var r := f(x, y, c);
            var rest := Chain(f, xs, ys, r.c);
            Chain(f, [x] + xs, [y] + ys, c) == Chained([r.a] + rest.digits, rest.c)
  {
    assert ([x] + xs)[1..] == xs && ([y] + ys)[1..] == ys;
  }

  lemma ChainTwo(f: Adder, x0: byte, x1: byte, xs: seq<byte>, y0: byte, y1: byte, ys: seq<byte>, c: bool)
    requires |xs| == |ys|
    ensures var low := f(x0, y0, c);
            var high := f(x1, y1, low.c);
            var rest := Chain(f, xs, ys, high.c);
            Chain(f, [x0, x1] + xs, [y0, y1] + ys, c) == Chained([low.a, high.a] + rest.digits, rest.c)
  {
    var low := f(x0, y0, c);
    var high := f(x1, y1, low.c);
    assert [x0, x1] + xs == [x0] + ([x1] + xs) && [y0, y1] + ys == [y0] + ([y1] + ys);
    ChainOne(f, x1, xs, y1, ys, low.c);
    ChainOne(f, x0, [x1] + xs, y0, [y1] + ys, c);
    TwoInFront(low.a, high.a, Chain(f, xs, ys, high.c).digits);
  }

  lemma TwoInFront(a: byte, b: byte, bs: seq<byte>)
    ensures [a] + ([b] + bs) == [a, b] + bs
  {
  }

  // ---------------------------------------------------------------- the cores' code, chained

  /** Whose code is run on the 8-bit accumulator */
  datatype Core = Nmos | Cmos | Wdc

  function SubOf(core: Core): Adder {
    if core == Cmos then SubCmos else Sub
  }

  method AdcOn(core: Core, acc: Accumulator, v: byte)
    modifies acc
    ensures Result(acc.a, acc.carry) == Add(old(acc.a), v, old(acc.carry))
  {
    match core {
      case Nmos => acc.AdcNmos(v);
      case Cmos => acc.AdcCmos(v);
      case Wdc => acc.AdcWdc(v);
    }
  }

  method SbcOn(core: Core, acc: Accumulator, v: byte)
    modifies acc
    ensures Result(acc.a, acc.carry) == SubOf(core)(old(acc.a), v, old(acc.carry))
  {
    match core {
      case Nmos => acc.SbcNmos(v);
      case Cmos => acc.SbcCmos(v);
      case Wdc => acc.SbcWdc(v);
    }
  }

  /** After `i` bytes: what has been computed, and what the rest of the chain will add to it. */
  ghost predicate Partway(f: Adder, xs: seq<byte>, ys: seq<byte>, c: bool, i: nat, digits: seq<byte>, carry: bool)
    requires |xs| == |ys| && i <= |xs|
  {
    var rest := Chain(f, xs[i..], ys[i..], carry);
    Chain(f, xs, ys, c) == Chained(digits + rest.digits, rest.c)
  }

  lemma PartwayStart(f: Adder, xs: seq<byte>, ys: seq<byte>, c: bool)
    requires |xs| == |ys|
    ensures Partway(f, xs, ys, c, 0, [], c)
  {
    assert xs[0..] == xs && ys[0..] == ys;
    var all := Chain(f, xs, ys, c);
    assert [] + all.digits == all.digits;
  }

  lemma PartwayStep(f: Adder, xs: seq<byte>, ys: seq<byte>, c: bool, i: nat, digits: seq<byte>, carry: bool)
    requires |xs| == |ys| && i < |xs| && Partway(f, xs, ys, c, i, digits, carry)
    ensures var r := f(xs[i], ys[i], carry); Partway(f, xs, ys, c, i + 1, digits + [r.a], r.c)
  {
    var r := f(xs[i], ys[i], carry);
    assert xs[i..][1..] == xs[i + 1..] && ys[i..][1..] == ys[i + 1..];
    var rest := Chain(f, xs[i + 1..], ys[i + 1..], r.c);
    assert Chain(f, xs[i..], ys[i..], carry) == Chained([r.a] + rest.digits, rest.c);
    assert digits + ([r.a] + rest.digits) == digits + [r.a] + rest.digits;
  }

  lemma PartwayEnd(f: Adder, xs: seq<byte>, ys: seq<byte>, c: bool, digits: seq<byte>, carry: bool)
    requires |xs| == |ys| && Partway(f, xs, ys, c, |xs|, digits, carry)
    ensures Chained(digits, carry) == Chain(f, xs, ys, c)
  {
    assert digits + [] == digits;
  }

  /** As many decimal ADCs as there are bytes, on any core: the sum, digit by digit. */
  method AdcChain(core: Core, acc: Accumulator, xs: seq<byte>, ys: seq<byte>) returns (digits: seq<byte>)
    requires |xs| == |ys|
    modifies acc
    ensures Chained(digits, acc.carry) == Chain(Add, xs, ys, old(acc.carry))
    ensures AllBcd(xs) && AllBcd(ys) ==>
              && AllBcd(digits) && |digits| == |xs|
              && Number(digits) + When(acc.carry, Hundreds(|xs|)) == Number(xs) + Number(ys) + When(old(acc.carry), 1)
  {
    digits := [];
    PartwayStart(Add, xs, ys, acc.carry);
    for i := 0 to |xs|
      invariant Partway(Add, xs, ys, old(acc.carry), i, digits, acc.carry)
    {
      PartwayStep(Add, xs, ys, old(acc.carry), i, digits, acc.carry);
      acc.a := xs[i];
      AdcOn(core, acc, ys[i]);
      digits := digits + [acc.a];
    }
    PartwayEnd(Add, xs, ys, old(acc.carry), digits, acc.carry);
    SumOfChain(xs, ys, old(acc.carry));
  }

  lemma SumOfChain(xs: seq<byte>, ys: seq<byte>, c: bool)
    requires |xs| == |ys|
    ensures var r := Chain(Add, xs, ys, c);
            AllBcd(xs) && AllBcd(ys) ==>
              && AllBcd(r.digits)
              && Number(r.digits) + When(r.c, Hundreds(|xs|)) == Number(xs) + Number(ys) + When(c, 1)
  {
    if AllBcd(xs) && AllBcd(ys) {
      CoresAreDecimal();
      AddChainNumber(Add, xs, ys, c);
    }
  }

  /** As many decimal SBCs, on any core: the difference. */
  method SbcChain(core: Core, acc: Accumulator, xs: seq<byte>, ys: seq<byte>) returns (digits: seq<byte>)
    requires |xs| == |ys|
    modifies acc
    ensures Chained(digits, acc.carry) == Chain(SubOf(core), xs, ys, old(acc.carry))
    ensures AllBcd(xs) && AllBcd(ys) ==>
              && AllBcd(digits) && |digits| == |xs|
              && Number(digits) + Number(ys) + When(!old(acc.carry), 1) ==
                 Number(xs) + When(!acc.carry, Hundreds(|xs|))
  {
    digits := [];
    ghost var f := SubOf(core);
    PartwayStart(f, xs, ys, acc.carry);
    for i := 0 to |xs|
      invariant Partway(f, xs, ys, old(acc.carry), i, digits, acc.carry)
    {
      PartwayStep(f, xs, ys, old(acc.carry), i, digits, acc.carry);
      acc.a := xs[i];
      SbcOn(core, acc, ys[i]);
      digits := digits + [acc.a];
    }
    PartwayEnd(f, xs, ys, old(acc.carry), digits, acc.carry);
    DifferenceOfChain(core, xs, ys, old(acc.carry));
  }

  lemma DifferenceOfChain(core: Core, xs: seq<byte>, ys: seq<byte>, c: bool)
    requires |xs| == |ys|
    ensures var r := Chain(SubOf(core), xs, ys, c);
            AllBcd(xs) && AllBcd(ys) ==>
              && AllBcd(r.digits)
              && Number(r.digits) + Number(ys) + When(!c, 1) == Number(xs) + When(!r.c, Hundreds(|xs|))
  {
    if AllBcd(xs) && AllBcd(ys) {
      CoresAreDecimal();
      SubChainNumber(SubOf(core), xs, ys, c);
    }
  }

  ghost predicate WidePartway(f: Adder, xs: seq<word>, ys: seq<word>, c: bool, i: nat, words: seq<word>, carry: bool)
    requires |xs| == |ys| && i <= |xs|
  {
    var rest := WideChain(f, xs[i..], ys[i..], carry);
    WideChain(f, xs, ys, c) == WideChained(words + rest.words, rest.c)
  }

  lemma WidePartwayStart(f: Adder, xs: seq<word>, ys: seq<word>, c: bool)
    requires |xs| == |ys|
    ensures WidePartway(f, xs, ys, c, 0, [], c)
  {
    assert xs[0..] == xs && ys[0..] == ys;
    var all := WideChain(f, xs, ys, c);
    assert [] + all.words == all.words;
  }

  lemma WidePartwayStep(f: Adder, xs: seq<word>, ys: seq<word>, c: bool, i: nat, words: seq<word>, carry: bool)
    requires |xs| == |ys| && i < |xs| && WidePartway(f, xs, ys, c, i, words, carry)
    ensures var r := Wide(f, xs[i], ys[i], carry); WidePartway(f, xs, ys, c, i + 1, words + [r.w], r.c)
  {
    var r := Wide(f, xs[i], ys[i], carry);
    assert xs[i..][1..] == xs[i + 1..] && ys[i..][1..] == ys[i + 1..];
    var rest := WideChain(f, xs[i + 1..], ys[i + 1..], r.c);
    assert WideChain(f, xs[i..], ys[i..], carry) == WideChained([r.w] + rest.words, rest.c);
    assert words + ([r.w] + rest.words) == words + [r.w] + rest.words;
  }

  lemma WidePartwayEnd(f: Adder, xs: seq<word>, ys: seq<word>, c: bool, words: seq<word>, carry: bool)
    requires |xs| == |ys| && WidePartway(f, xs, ys, c, |xs|, words, carry)
    ensures WideChained(words, carry) == WideChain(f, xs, ys, c)
  {
    assert words + [] == words;
  }

  /** As many 16-bit decimal ADCs as there are words: what 8-bit ones on their bytes leave, whatever the
      digits. */
  method LongAdcChain(acc: LongAccumulator, xs: seq<word>, ys: seq<word>) returns (words: seq<word>)
    requires |xs| == |ys|
    modifies acc
    ensures |words| == |xs|
    ensures Chained(Bytes(words), acc.carry) == Chain(Add, Bytes(xs), Bytes(ys), old(acc.carry))
  {
    words := [];
    WidePartwayStart(Add, xs, ys, acc.carry);
    for i := 0 to |xs|
      invariant WidePartway(Add, xs, ys, old(acc.carry), i, words, acc.carry)
    {
      WidePartwayStep(Add, xs, ys, old(acc.carry), i, words, acc.carry);
      acc.c := xs[i];
      acc.Adc(ys[i]);
      words := words + [acc.c];
    }
    WidePartwayEnd(Add, xs, ys, old(acc.carry), words, acc.carry);
    WideChainIsChain(Add, xs, ys, old(acc.carry));
  }
}
