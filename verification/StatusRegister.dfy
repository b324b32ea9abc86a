/** The status register that all cores of the family share, as eight flags and as a byte. */
module StatusRegister {
  import opened Basics

  /** The eight bits of `reg_p`, from bit 7 down. Bit 5 is M (or unused), bit 4 is X (or B). */
  datatype P = P(n: bool, v: bool, m: bool, x: bool, d: bool, i: bool, z: bool, c: bool)

  /** A bit on top of a number. */
  function Cons(b: bool, rest: nat): nat {
    Num(b) + 2 * rest
  }

  lemma ConsHalves(b: bool, rest: nat)
    ensures Cons(b, rest) / 2 == rest && (Cons(b, rest) % 2 == 1 <==> b)
  {
  }

  function ByteOf(p: P): byte {
    Cons(p.c, Cons(p.z, Cons(p.i, Cons(p.d, Cons(p.x, Cons(p.m, Cons(p.v, Num(p.n))))))))
  }

  function FlagsOf(b: byte): P {
    var b1 := b / 2;
    var b2 := b1 / 2;
    var b3 := b2 / 2;
    var b4 := b3 / 2;
    var b5 := b4 / 2;
    var b6 := b5 / 2;
    P(b6 / 2 % 2 == 1, b6 % 2 == 1, b5 % 2 == 1, b4 % 2 == 1, b3 % 2 == 1, b2 % 2 == 1, b1 % 2 == 1, b % 2 == 1)
  }

  /** Packing and unpacking the flags are inverse to each other. */
  lemma FlagsRoundTrip(p: P)
    ensures FlagsOf(ByteOf(p)) == p
  {
    var b5 := Cons(p.m, Cons(p.v, Num(p.n)));
    var b2 := Cons(p.i, Cons(p.d, Cons(p.x, b5)));
    TopHalves(p.m, p.v, p.n);
    ThreeHalves(p.i, p.d, p.x, b5);
    ThreeHalves(p.c, p.z, p.i, Cons(p.d, Cons(p.x, b5)));
  }

  lemma ThreeHalves(b0: bool, b1: bool, b2: bool, rest: nat)
    ensures var b := Cons(b0, Cons(b1, Cons(b2, rest)));
            && b / 2 == Cons(b1, Cons(b2, rest)) && b / 2 / 2 == Cons(b2, rest) && b / 2 / 2 / 2 == rest
            && (b % 2 == 1 <==> b0) && (b / 2 % 2 == 1 <==> b1) && (b / 2 / 2 % 2 == 1 <==> b2)
  {
    ConsHalves(b0, Cons(b1, Cons(b2, rest)));
    ConsHalves(b1, Cons(b2, rest));
    ConsHalves(b2, rest);
  }

  lemma TopHalves(b0: bool, b1: bool, b2: bool)
    ensures var b := Cons(b0, Cons(b1, Num(b2)));
            && (b % 2 == 1 <==> b0) && (b / 2 % 2 == 1 <==> b1) && (b / 2 / 2 % 2 == 1 <==> b2)
  {
    ConsHalves(b0, Cons(b1, Num(b2)));
    ConsHalves(b1, Num(b2));
  }

  lemma HalvesCons(b: nat)
    ensures Cons(b % 2 == 1, b / 2) == b
  {
  }

  lemma ByteRoundTrip(b: byte)
    ensures ByteOf(FlagsOf(b)) == b
  {
    var b1 := b / 2;
    var b2 := b1 / 2;
    var b3 := b2 / 2;
    var b4 := b3 / 2;
    var b5 := b4 / 2;
    var b6 := b5 / 2;
    HalvesCons(b);
    HalvesCons(b1);
    HalvesCons(b2);
    HalvesCons(b3);
    HalvesCons(b4);
    HalvesCons(b5);
    HalvesCons(b6);
    assert b6 / 2 == Num(b6 / 2 % 2 == 1);
  }

  /** Bit 7 of the packed status is the negative flag. */
  lemma SignBit(p: P)
    ensures ByteOf(p) >= 0x80 <==> p.n
  {
  }

  /** Where each flag is in the byte: N, V, M, X, D, I, Z and C from bit 7 down. */
  lemma FlagsAreBits(b: byte)
    ensures var p := FlagsOf(b);
            && p.n == BitOf(b, 7) && p.v == BitOf(b, 6) && p.m == BitOf(b, 5) && p.x == BitOf(b, 4)
            && p.d == BitOf(b, 3) && p.i == BitOf(b, 2) && p.z == BitOf(b, 1) && p.c == BitOf(b, 0)
  {
    var b1 := b / 2;
    var b2 := b1 / 2;
    var b3 := b2 / 2;
    var b4 := b3 / 2;
    var b5 := b4 / 2;
    var b6 := b5 / 2;
    LowBits(b);
    HighBits(b);
    assert b2 == b / 4 && b3 == b / 8 && b4 == b / 0x10 && b5 == b / 0x20 && b6 == b / 0x40 && b6 / 2 == b / 0x80;
  }

  lemma BitsAreFlags(p: P)
    ensures var b := ByteOf(p);
            && BitOf(b, 7) == p.n && BitOf(b, 6) == p.v && BitOf(b, 5) == p.m && BitOf(b, 4) == p.x
            && BitOf(b, 3) == p.d && BitOf(b, 2) == p.i && BitOf(b, 1) == p.z && BitOf(b, 0) == p.c
  {
    FlagsRoundTrip(p);
    FlagsAreBits(ByteOf(p));
  }

  /** The flag that bit `k` of the byte is */
  predicate FlagAt(p: P, k: nat)
    requires k < 8
  {
    match k
    case 0 => p.c
    case 1 => p.z
    case 2 => p.i
    case 3 => p.d
    case 4 => p.x
    case 5 => p.m
    case 6 => p.v
    case _ => p.n
  }

  lemma BitIsFlag(p: P, k: nat)
    requires k < 8
    ensures BitOf(ByteOf(p), k) == FlagAt(p, k)
  {
    BitsAreFlags(p);
    assert k == 0 || k == 1 || k == 2 || k == 3 || k == 4 || k == 5 || k == 6 || k == 7;
  }
}
