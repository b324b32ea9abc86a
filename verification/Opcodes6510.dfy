/**
 What the two 6510 cores have in common: the instructions, and the macros that 6510core.c and
 6510dtvcore.c share word for word.
 */
module Opcodes6510 {
  import opened Basics
  import Decimal
  import opened Mos6510

  // ---------------------------------------------------------------- instructions

  datatype Mode = Imm | Zp | ZpX | ZpY | Abs | AbsX | AbsY | IndX | IndY

  /** Instructions that read a value. */
  datatype ReadOp = Adc | And | Bit | Cmp | Cpx | Cpy | Eor | Lda | Ldx | Ldy | Lax | Las | Ora | Sbc | Noop
    | Anc | Ane | Arr | Asr | Lxa | Sbx

  /** Instructions that read, modify and write. */
  datatype ModifyOp = Asl | Dec | Dcp | Inc | Isb | Lsr | Rla | Rol | Ror | Rra | Slo | Sre

  /** What is stored: a register, or A and X combined. */
  datatype Source = A | X | Y | AandX

  datatype Flag = N | V | C | Z

  datatype ImpliedOp = AslA | LsrA | RolA | RorA | Clc | Cld | Cli | Clv | Sec | Sed | Sei
    | Dex | Dey | Inx | Iny | Tax | Tay | Tsx | Txa | Txs | Tya | Nop
    | PushA | PushP | PullA | PullP | ReturnInt | ReturnSub | CallSub | Jmp | JmpInd

  /** `High` is SHA, SHX and SHY, `HighToSp` is SHS; `Other` is BRK and the opcodes that jam. */
  datatype Instr = Read(read: ReadOp, mode: Mode)
    | Modify(change: ModifyOp, mode: Mode)
    | Write(source: Source, mode: Mode)
    | High(source: Source, mode: Mode)
    | HighToSp
    | Branch(flag: Flag, on: bool)
    | Implied(implied: ImpliedOp)
    | Other

  function Length(mode: Mode): nat {
    if mode in {Abs, AbsX, AbsY} then 3 else 2
  }

  /** The operand bytes behind the opcode. */
  function P1(s: Cpu): byte {
    Load(s, s.pc + 1)
  }

  function P2(s: Cpu): word {
    Load(s, s.pc + 1) + 0x100 * Load(s, s.pc + 2)
  }

  // ---------------------------------------------------------------- bits

  /** The bits that are set in both. */
  function Common(a: nat, b: nat): (r: nat)
    ensures r <= a && r <= b
  {
    if a == 0 || b == 0 then 0
    else 2 * Common(a / 2, b / 2) + if a % 2 == 1 && b % 2 == 1 then 1 else 0
  }

  /** `&`, `|` and `^` on bytes */
  function BitAnd(a: byte, b: byte): byte {
    Common(a, b)
  }

  function BitOr(a: byte, b: byte): byte {
    0xff - Common(0xff - a, 0xff - b)
  }

  function BitXor(a: byte, b: byte): byte {
    BitOr(a, b) - BitAnd(a, b)
  }

  predicate Bit7(v: int) {
    v / 0x80 % 2 == 1
  }

  predicate Bit6(v: int) {
    v / 0x40 % 2 == 1
  }

  predicate Bit5(v: int) {
    v / 0x20 % 2 == 1
  }

  // ---------------------------------------------------------------- flags

  function SetC(s: Cpu, b: bool): Cpu {
    s.(p := s.p.(c := b))
  }

  function SetV(s: Cpu, b: bool): Cpu {
    s.(p := s.p.(v := b))
  }

  function SetSign(s: Cpu, b: bool): Cpu {
    s.(fn := if b then 0x80 else 0)
  }

  function SetZero(s: Cpu, b: bool): Cpu {
    s.(fz := if b then 0 else 1)
  }

  function Carry(s: Cpu): nat {
    if s.p.c then 1 else 0
  }

  // ---------------------------------------------------------------- arithmetic

  /** The accumulator, C, V and the lazy N and Z after ADC or SBC. */
  datatype Sum = Sum(a: byte, c: bool, v: bool, fn: byte, fz: byte)

  function Taking(s: Cpu, r: Sum): Cpu {
    s.(a := r.a, p := s.p.(c := r.c, v := r.v), fn := r.fn, fz := r.fz)
  }

  /** The sum with its low digit adjusted, in decimal mode. */
  function LowAdjusted(a: byte, v: byte, c: bool): nat {
    var low := Decimal.AddDigit(a % 16, v % 16, c);
    low.d + 16 * (a / 16 + v / 16 + Num(low.out))
  }

  /** `ADC`: in decimal mode Z is that of the binary sum, N and V those of the sum before the high digit is
      adjusted. */
  function SumOf(a: byte, v: byte, c: bool, d: bool): Sum {
    var all := a + v + Num(c);
    if d then
      var tmp := LowAdjusted(a, v, c);
      var sum := Decimal.Add(a, v, c);
      Sum(sum.a, sum.c, Bit7(a) != Bit7(tmp) && Bit7(a) == Bit7(v),
          if Bit7(tmp) then 0x80 else 0, if Low8(all) == 0 then 0 else 1)
    else Sum(Low8(all), all > 0xff, Bit7(a) == Bit7(v) && Bit7(a) != Bit7(all), Low8(all), Low8(all))
  }

  /** `SBC`: all flags are those of the binary difference. */
  function DifferenceOf(a: byte, v: byte, c: bool, d: bool): Sum {
    var tmp := a - v - Num(!c);
    Sum(if d then Decimal.Sub(a, v, c).a else Low8(tmp), tmp >= 0,
        Bit7(a) != Bit7(tmp) && Bit7(a) != Bit7(v), Low8(tmp), Low8(tmp))
  }

  function AddTo(s: Cpu, v: byte): Cpu {
    Taking(s, SumOf(s.a, v, s.p.c, s.p.d))
  }

  function SubtractFrom(s: Cpu, v: byte): Cpu {
    Taking(s, DifferenceOf(s.a, v, s.p.c, s.p.d))
  }

  /** ADC sets N and Z whatever they were. */
  lemma AddSetsNZ(s: Cpu, r: int, v: byte)
    ensures AddTo(SetNZ(s, r), v) == AddTo(s, v)
  {
  }

  /** A byte and the carry, rotated to the right. */
  lemma HalfWithCarry(v: byte, c: nat)
    requires c <= 1
    ensures var r := v + 0x100 * c; r % 2 == v % 2 && r / 2 == v / 2 + 0x80 * c
  {
  }

  /** An `unsigned int` */
  function Unsigned(v: int): nat {
    v % 0x1_0000_0000
  }

  /** `CMP`, `CPX`, `CPY`: an unsigned difference below 0x100 is one that has not wrapped. */
  function Compare(s: Cpu, r: byte, v: byte): Cpu {
    var tmp := Unsigned(r - v);
    SetNZ(SetC(s, tmp < 0x100), tmp % 0x100)
  }

  /** `BIT` */
  function TestBits(s: Cpu, v: byte): Cpu {
    SetZero(SetV(SetSign(s, Bit7(v)), Bit6(v)), BitAnd(v, s.a) == 0)
  }

  /** `ARR` */
  function AndRotate(s: Cpu, v: byte): Cpu {
    var tmp := BitAnd(s.a, v);
    var half: byte := tmp / 2 + 0x80 * Carry(s);
    if s.p.d then
      var s1 := SetV(SetZero(SetSign(s, s.p.c), half == 0), Bit6(half) != Bit6(tmp));
      var r1 := if tmp % 16 + tmp % 2 > 5 then half - half % 16 + (half + 6) % 16 else half;
      var fix := (tmp - tmp % 16) + 0x10 * (tmp / 16 % 2) > 0x50;
      var r2 := if fix then r1 % 16 + Low8(r1 - r1 % 16 + 0x60) else r1;
      SetC(s1, fix).(a := r2)
    else
      SetV(SetC(SetNZ(s, half), Bit6(half)), Bit6(half) != Bit5(half)).(a := half)
  }

  /** A relative branch. */
  function BranchTo(s: Cpu, taken: bool): Cpu {
    var s1 := IncPc(s, 2);
    var p1 := P1(s);
    if taken then s1.(pc := Low16(s1.pc + if p1 >= 0x80 then p1 - 0x100 else p1)) else s1
  }

  predicate FlagSet(s: Cpu, f: Flag) {
    match f
    case N => Sign(s)
    case V => s.p.v
    case C => s.p.c
    case Z => Zero(s)
  }

  /** The instructions without operand that both cores write alike, the register transfers aside. */
  function SetFlag(s: Cpu, op: ImpliedOp): Cpu {
    match op
    case Clc => SetC(s, false)
    case Sec => SetC(s, true)
    case Clv => SetV(s, false)
    case Cld => s.(p := s.p.(d := false))
    case Sed => s.(p := s.p.(d := true))
    case Cli => s.(p := s.p.(i := false))
    case Sei => s.(p := s.p.(i := true))
    case _ => s
  }

  /** `JMP_IND`: the pointer does not cross its page. */
  function JumpIndirect(s: Cpu): Cpu {
    var p2 := P2(s);
    s.(pc := Load(s, p2) + 0x100 * Load(s, p2 - p2 % 0x100 + Low8(p2 % 0x100 + 1)))
  }
}
