/**
 What each instruction of the 6510 does to the registers, the flags and the memory, by the byte it reads, the bytes
 behind the opcode and the bits of the packed status. It is stated of `Core6510`; `CoreAgreement` carries it over to the
 other core.
 */
module Effects6510 {
  import opened Basics
  import C = Core6510
  import opened Mos6510
  import opened OpcodeLaws
  import opened Opcodes6510
  import opened StatusRegister

  // ---------------------------------------------------------------- statements

  /** N and Z are those of a byte. */
  predicate Flagged(t: Cpu, v: byte) {
    (Sign(t) <==> v >= 0x80) && (Zero(t) <==> v == 0)
  }

  /** The byte `k` behind the opcode */
  function Behind(s: Cpu, k: nat): byte {
    s.mem[Low16(s.pc + k)]
  }

  function OperandWord(s: Cpu): word {
    Behind(s, 1) as int + 0x100 * Behind(s, 2) as int
  }

  function PcAfter(s: Cpu, size: nat): word {
    Low16(s.pc + size)
  }

  /** The word at a pointer in page zero, which wraps in the page */
  function ZeroWord(s: Cpu, a: byte): word {
    s.mem[a] as int + 0x100 * s.mem[Low8(a + 1)] as int
  }

  /** The byte `k` below the top of the stack, and above it */
  function Down(s: Cpu, k: nat): word {
    0x100 + Low8(s.sp - k)
  }

  function Up(s: Cpu, k: nat): word {
    0x100 + Low8(s.sp + k)
  }

  // ---------------------------------------------------------------- addresses

  /** The modes that do not go through a pointer: page zero wraps, the rest of the memory as a whole. */
  lemma PlainAddresses(s: Cpu)
    ensures C.ReadAddress(s, Imm) == PcAfter(s, 1)
    ensures C.ReadAddress(s, Zp) == Behind(s, 1)
    ensures C.ReadAddress(s, ZpX) == (Behind(s, 1) + s.x) % 0x100
    ensures C.ReadAddress(s, ZpY) == (Behind(s, 1) + s.y) % 0x100
    ensures C.ReadAddress(s, Abs) == OperandWord(s)
    ensures C.ReadAddress(s, AbsX) == (OperandWord(s) + s.x) % 0x1_0000
    ensures C.ReadAddress(s, AbsY) == (OperandWord(s) + s.y) % 0x1_0000
  {
    LowIsRemainder(Behind(s, 1) + s.x);
    LowIsRemainder(Behind(s, 1) + s.y);
    LowIsRemainder(OperandWord(s) + s.x);
    LowIsRemainder(OperandWord(s) + s.y);
  }

  /** With `(d,X)` the pointer is X further in page zero, with `(d),Y` what it points at is Y further. */
  lemma PointerAddresses(s: Cpu)
    ensures C.ReadAddress(s, IndX) == ZeroWord(s, Low8(Behind(s, 1) + s.x))
    ensures C.ReadAddress(s, IndY) == Low16(ZeroWord(s, Behind(s, 1)) + s.y)
  {
    var b := Behind(s, 1);
    ZeroSteps(b + s.x);
  }

  lemma ZeroSteps(v: int)
    ensures Low8(Low8(v) + 1) == Low8(v + 1)
  {
    LowIsRemainder(v);
    LowIsRemainder(v + 1);
  }

  /** Reads and writes name the same address. */
  lemma WritesToo(s: Cpu, mode: Mode)
    ensures C.WriteAddress(s, mode) == C.ReadAddress(s, mode)
  {
    ZeroSteps(P1(s) + s.x);
  }

  function LengthOf(mode: Mode): nat {
    match mode
    case Abs => 3
    case AbsX => 3
    case AbsY => 3
    case _ => 2
  }

  // ---------------------------------------------------------------- one instruction

  /** An instruction that reads takes the byte at its address and moves on by its length. */
  lemma ReadsThere(s: Cpu, op: ReadOp, mode: Mode)
    ensures var t := C.ExecRead(s, op, s.mem[C.ReadAddress(s, mode)]);
            C.Exec(s, Read(op, mode)) == t.(pc := Low16(t.pc + LengthOf(mode)))
  {
  }

  /** One that modifies writes what it makes of the byte at its address back there, and nothing else. */
  lemma ModifiesThere(s: Cpu, op: ModifyOp, mode: Mode)
    ensures var a := C.ReadAddress(s, mode);
            var m := C.ExecModify(s, op, s.mem[a]);
            C.Exec(s, Modify(op, mode)) ==
            m.s.(pc := PcAfter(s, LengthOf(mode)), mem := s.mem[a := Low8(m.v)])
  {
    WritesToo(s, mode);
    KeepsPlace(s, op, s.mem[C.ReadAddress(s, mode)]);
    assert Store(s, C.ReadAddress(s, mode), s.mem[C.ReadAddress(s, mode)]) == s;
  }

  lemma KeepsPlace(s: Cpu, op: ModifyOp, v: byte)
    ensures C.ExecModify(s, op, v).s.pc == s.pc && C.ExecModify(s, op, v).s.mem == s.mem
  {
  }

  /** A store writes its register, or what A and X have in common. */
  lemma WritesThere(s: Cpu, r: Source, mode: Mode)
    ensures var t := C.Exec(s, Write(r, mode));
            var a := C.ReadAddress(s, mode);
            && t == s.(pc := PcAfter(s, LengthOf(mode)), mem := s.mem[a := t.mem[a]])
            && (r.A? ==> t.mem[a] == s.a) && (r.X? ==> t.mem[a] == s.x) && (r.Y? ==> t.mem[a] == s.y)
            && (r.AandX? ==> t.mem[a] == BitAnd(s.a, s.x))
  {
    WritesToo(s, mode);
    WritesToo(IncPc(s, LengthOf(mode)), mode);
  }

  // ---------------------------------------------------------------- loads and logic

  lemma LoadMeans(s: Cpu, v: byte)
    ensures var t := C.ExecRead(s, Lda, v); t == s.(a := v, fn := t.fn, fz := t.fz) && Flagged(t, v)
    ensures var t := C.ExecRead(s, Ldx, v); t == s.(x := v, fn := t.fn, fz := t.fz) && Flagged(t, v)
    ensures var t := C.ExecRead(s, Ldy, v); t == s.(y := v, fn := t.fn, fz := t.fz) && Flagged(t, v)
    ensures var t := C.ExecRead(s, Lax, v); t == s.(a := v, x := v, fn := t.fn, fz := t.fz) && Flagged(t, v)
    ensures C.ExecRead(s, Noop, v) == s
  {
  }

  predicate OnlyA(s: Cpu, t: Cpu) {
    t == s.(a := t.a, fn := t.fn, fz := t.fz) && Flagged(t, t.a)
  }

  /** AND, ORA and EOR, bit by bit. */
  lemma LogicMeans(s: Cpu, v: byte, k: nat)
    requires k < 8
    ensures var t := C.ExecRead(s, And, v); OnlyA(s, t) && (BitOf(t.a, k) <==> BitOf(s.a, k) && BitOf(v, k))
    ensures var t := C.ExecRead(s, Ora, v); OnlyA(s, t) && (BitOf(t.a, k) <==> BitOf(s.a, k) || BitOf(v, k))
    ensures var t := C.ExecRead(s, Eor, v); OnlyA(s, t) && (BitOf(t.a, k) <==> BitOf(s.a, k) != BitOf(v, k))
  {
    BitwiseMeans(s.a, v, k);
    XorMeans(s.a, v, k);
  }

  /** ADC and SBC leave what `AddMeans`, `SubtractMeans` and their decimal companions say of A, the operand and the
      carry. */
  lemma SumsMean(s: Cpu, v: byte)
    ensures var t, r := C.ExecRead(s, Adc, v), SumOf(s.a, v, s.p.c, s.p.d);
            t == s.(a := r.a, p := s.p.(c := r.c, v := r.v), fn := r.fn, fz := r.fz)
    ensures var t, r := C.ExecRead(s, Sbc, v), DifferenceOf(s.a, v, s.p.c, s.p.d);
            t == s.(a := r.a, p := s.p.(c := r.c, v := r.v), fn := r.fn, fz := r.fz)
  {
  }

  /** A comparison of a register with the operand */
  predicate Compared(s: Cpu, t: Cpu, r: byte, v: byte) {
    && (t.p.c <==> r >= v) && (Zero(t) <==> r == v) && (Sign(t) <==> (r - v) % 0x100 >= 0x80)
    && t == s.(p := s.p.(c := t.p.c), fn := t.fn, fz := t.fz)
  }

  /** CMP, CPX and CPY compare A, X and Y. */
  lemma ComparesWhich(s: Cpu, v: byte)
    ensures Compared(s, C.ExecRead(s, Cmp, v), s.a, v)
    ensures Compared(s, C.ExecRead(s, Cpx, v), s.x, v)
    ensures Compared(s, C.ExecRead(s, Cpy, v), s.y, v)
  {
    CompareMeans(s, s.a, v);
    CompareMeans(s, s.x, v);
    CompareMeans(s, s.y, v);
  }

  /** BIT. */
  lemma BitMeans(s: Cpu, v: byte)
    ensures var t := C.ExecRead(s, Bit, v);
            && (Sign(t) <==> BitOf(v, 7)) && (t.p.v <==> BitOf(v, 6))
            && (Zero(t) <==> forall k: nat :: !(BitOf(v, k) && BitOf(s.a, k)))
            && t == s.(p := s.p.(v := t.p.v), fn := t.fn, fz := t.fz)
  {
    TestBitsMeans(s, v);
    HighBits(v);
    UpperTwo(v);
  }

  lemma UpperTwo(v: byte)
    ensures v >= 0x80 <==> v / 0x80 % 2 == 1
    ensures v % 0x80 >= 0x40 <==> v / 0x40 % 2 == 1
  {
  }

  // ---------------------------------------------------------------- undocumented reads

  /** LAS puts what SP and the operand have in common into SP, X and A. */
  lemma LasMeans(s: Cpu, v: byte, k: nat)
    requires k < 8
    ensures var t := C.ExecRead(s, Las, v);
            && (BitOf(t.a, k) <==> BitOf(s.sp, k) && BitOf(v, k)) && t.x == t.a && t.sp == t.a
            && t == s.(a := t.a, x := t.x, sp := t.sp, fn := t.fn, fz := t.fz) && Flagged(t, t.a)
  {
    BitwiseMeans(s.sp, v, k);
  }

  /** ANC is AND with N also in C; ASR is AND and then LSR A. */
  lemma AncAsrMean(s: Cpu, v: byte)
    ensures var t, u := C.ExecRead(s, Anc, v), C.ExecRead(s, And, v);
            t == u.(p := s.p.(c := BitOf(u.a, 7)))
    ensures var t, u := C.ExecRead(s, Asr, v), C.ExecImplied(C.ExecRead(s, And, v), LsrA);
            t == u.(pc := s.pc)
  {
    var u := C.ExecRead(s, And, v);
    HighBits(u.a);
    UpperTwo(u.a);
  }

  /** ANE is AND with X and the operand, of an A whose bits but the fourth read as one; LXA is AND with the operand, of
      one whose bits but the fourth and the lowest do, into A and X. */
  lemma UnstableMean(s: Cpu, v: byte, k: nat)
    requires k < 8
    ensures var t := C.ExecRead(s, Ane, v);
            OnlyA(s, t) && (BitOf(t.a, k) <==> (k != 4 || BitOf(s.a, k)) && BitOf(s.x, k) && BitOf(v, k))
    ensures var t := C.ExecRead(s, Lxa, v);
            && (BitOf(t.a, k) <==> ((k != 4 && k != 0) || BitOf(s.a, k)) && BitOf(v, k))
            && t == s.(a := t.a, x := t.a, fn := t.fn, fz := t.fz) && Flagged(t, t.a)
  {
    ConstantBits(k);
    BitwiseMeans(s.a, 0xef, k);
    BitwiseMeans(BitOr(s.a, 0xef), s.x, k);
    BitwiseMeans(BitAnd(BitOr(s.a, 0xef), s.x), v, k);
    BitwiseMeans(s.a, 0xee, k);
    BitwiseMeans(BitOr(s.a, 0xee), v, k);
  }

  lemma ConstantBits(k: nat)
    requires k < 8
    ensures BitOf(0xef, k) <==> k != 4
    ensures BitOf(0xee, k) <==> k != 4 && k != 0
  {
    LowBits(0xef);
    HighBits(0xef);
    LowBits(0xee);
    HighBits(0xee);
    assert k == 0 || k == 1 || k == 2 || k == 3 || k == 4 || k == 5 || k == 6 || k == 7;
  }

  /** SBX takes the operand from what A and X have in common, into X, with the flags of a comparison. */
  lemma SbxMeans(s: Cpu, v: byte)
    ensures var t, both := C.ExecRead(s, Sbx, v), BitAnd(s.a, s.x);
            && t.x == (both - v) % 0x100 && (t.p.c <==> both >= v) && Flagged(t, t.x)
            && t == s.(x := t.x, p := s.p.(c := t.p.c), fn := t.fn, fz := t.fz)
  {
    UnsignedDifference(BitAnd(s.a, s.x), v);
  }

  /** ARR, in both modes, changes A, the four arithmetic flags and nothing else. */
  lemma ArrKeeps(s: Cpu, v: byte)
    ensures C.ExecRead(s, Arr, v) == AndRotate(s, v)
    ensures var t := AndRotate(s, v); t == s.(a := t.a, p := s.p.(c := t.p.c, v := t.p.v), fn := t.fn, fz := t.fz)
  {
  }

  // ---------------------------------------------------------------- shifts and counts

  /** The byte in memory becomes `r`, with N and Z of it, and the carry `c`. */
  predicate Shifted(s: Cpu, m: C.Modified, r: byte, c: bool) {
    && Low8(m.v) == r && m.s == s.(p := s.p.(c := c), fn := m.s.fn, fz := m.s.fz) && Flagged(m.s, r)
  }

  /** ASL and ROL double a byte, bit 7 going to the carry and, with ROL, the carry coming in below. */
  lemma ShiftsLeft(s: Cpu, v: byte)
    ensures Shifted(s, C.ExecModify(s, Asl, v), 2 * v % 0x100, BitOf(v, 7))
    ensures Shifted(s, C.ExecModify(s, Rol, v), (2 * v + Num(s.p.c)) % 0x100, BitOf(v, 7))
  {
    HighBits(v);
    UpperTwo(v);
    DoubleMeans(s, v);
    RotateMeans(s, v);
  }

  lemma DoubleMeans(s: Cpu, v: byte)
    ensures Shifted(s, C.ExecModify(s, Asl, v), 2 * v % 0x100, Bit7(v))
  {
    LowIsRemainder(2 * v);
  }

  lemma RotateMeans(s: Cpu, v: byte)
    ensures Shifted(s, C.ExecModify(s, Rol, v), (2 * v + Num(s.p.c)) % 0x100, v >= 0x80)
  {
    LowIsRemainder(2 * v + Num(s.p.c));
  }

  /** LSR and ROR halve it, bit 0 going to the carry and, with ROR, the carry coming in above. */
  lemma ShiftsRight(s: Cpu, v: byte)
    ensures Shifted(s, C.ExecModify(s, Lsr, v), v / 2, BitOf(v, 0))
    ensures Shifted(s, C.ExecModify(s, Ror, v), v / 2 + 0x80 * Num(s.p.c), BitOf(v, 0))
  {
    HalveMeans(s, v);
    RotateRightMeans(s, v);
  }

  lemma HalveMeans(s: Cpu, v: byte)
    ensures Shifted(s, C.ExecModify(s, Lsr, v), v / 2, v % 2 == 1)
  {
  }

  lemma RotateRightMeans(s: Cpu, v: byte)
    ensures Shifted(s, C.ExecModify(s, Ror, v), v / 2 + 0x80 * Num(s.p.c), v % 2 == 1)
  {
    HalfWithCarry(v, Num(s.p.c));
  }

  /** INC and DEC count modulo 256 and leave the carry alone. */
  lemma CountsMean(s: Cpu, v: byte)
    ensures Shifted(s, C.ExecModify(s, Inc, v), (v + 1) % 0x100, s.p.c)
    ensures Shifted(s, C.ExecModify(s, Dec, v), (v - 1) % 0x100, s.p.c)
  {
  }

  /** On the accumulator the shifts do the same as in memory. */
  lemma ShiftsOfA(s: Cpu)
    ensures AsInMemory(s, C.ExecImplied(s, AslA), C.ExecModify(s, Asl, s.a))
    ensures AsInMemory(s, C.ExecImplied(s, LsrA), C.ExecModify(s, Lsr, s.a))
  {
  }

  lemma RotationsOfA(s: Cpu)
    ensures AsInMemory(s, C.ExecImplied(s, RolA), C.ExecModify(s, Rol, s.a))
    ensures AsInMemory(s, C.ExecImplied(s, RorA), C.ExecModify(s, Ror, s.a))
  {
    RotateLeftOfA(s);
    RotateRightOfA(s);
  }

  lemma RotateLeftOfA(s: Cpu)
    ensures AsInMemory(s, C.ExecImplied(s, RolA), C.ExecModify(s, Rol, s.a))
  {
  }

  lemma RotateRightOfA(s: Cpu)
    ensures AsInMemory(s, C.ExecImplied(s, RorA), C.ExecModify(s, Ror, s.a))
  {
    HalfWithCarry(s.a, Num(s.p.c));
  }

  predicate AsInMemory(s: Cpu, t: Cpu, m: C.Modified) {
    t == m.s.(a := Low8(m.v), pc := PcAfter(s, 1))
  }

  // ---------------------------------------------------------------- registers

  /** A register has become `v`, with N and Z of it; `kept` is the state with that register and the program counter
      set. */
  predicate Takes(t: Cpu, kept: Cpu, v: byte) {
    t == kept.(fn := t.fn, fz := t.fz) && Flagged(t, v)
  }

  /** The transfers from A and to X. */
  lemma TransfersMean(s: Cpu)
    ensures Takes(C.ExecImplied(s, Tax), s.(x := s.a, pc := PcAfter(s, 1)), s.a)
    ensures Takes(C.ExecImplied(s, Tay), s.(y := s.a, pc := PcAfter(s, 1)), s.a)
    ensures Takes(C.ExecImplied(s, Tsx), s.(x := s.sp, pc := PcAfter(s, 1)), s.sp)
  {
  }

  /** Those to A and from X, of which TXS leaves the flags alone. */
  lemma TransfersBackMean(s: Cpu)
    ensures Takes(C.ExecImplied(s, Txa), s.(a := s.x, pc := PcAfter(s, 1)), s.x)
    ensures Takes(C.ExecImplied(s, Tya), s.(a := s.y, pc := PcAfter(s, 1)), s.y)
    ensures C.ExecImplied(s, Txs) == s.(sp := s.x, pc := PcAfter(s, 1))
    ensures C.ExecImplied(s, Nop) == s.(pc := PcAfter(s, 1))
  {
  }

  /** X and Y, up and down, modulo 256. */
  lemma IndexCounts(s: Cpu)
    ensures var v := (s.x + 1) % 0x100; Takes(C.ExecImplied(s, Inx), s.(x := v, pc := PcAfter(s, 1)), v)
    ensures var v := (s.x - 1) % 0x100; Takes(C.ExecImplied(s, Dex), s.(x := v, pc := PcAfter(s, 1)), v)
  {
    LowIsRemainder(s.x + 1);
    LowIsRemainder(s.x - 1);
  }

  lemma IndexCountsY(s: Cpu)
    ensures var v := (s.y + 1) % 0x100; Takes(C.ExecImplied(s, Iny), s.(y := v, pc := PcAfter(s, 1)), v)
    ensures var v := (s.y - 1) % 0x100; Takes(C.ExecImplied(s, Dey), s.(y := v, pc := PcAfter(s, 1)), v)
  {
    LowIsRemainder(s.y + 1);
    LowIsRemainder(s.y - 1);
  }

  /** The bit of the packed status that a flag instruction sets or clears. */
  function FlagBit(op: ImpliedOp): Option<nat> {
    match op
    case Clc => Some(0)
    case Sec => Some(0)
    case Cli => Some(2)
    case Sei => Some(2)
    case Cld => Some(3)
    case Sed => Some(3)
    case Clv => Some(6)
    case _ => None
  }

  function FlagOn(op: ImpliedOp): bool {
    op in {Sec, Sei, Sed}
  }

  /** It changes that bit and no other, and nothing but the program counter besides. */
  lemma FlagsMean(s: Cpu, op: ImpliedOp, k: nat)
    requires FlagBit(op).Some? && k < 8
    ensures var t := C.ExecImplied(s, op);
            && (BitOf(ByteOf(Status(t)), k) <==>
                  if k == FlagBit(op).value then FlagOn(op) else BitOf(ByteOf(Status(s)), k))
            && t == s.(p := t.p, pc := PcAfter(s, 1))
  {
    FlagKeeps(s, op);
    OneBitSet(Status(s), Status(C.ExecImplied(s, op)), FlagBit(op).value, FlagOn(op), k);
  }

  /** The packed status with one of those bits set or cleared */
  predicate WithBit(p: P, q: P, bit: nat, on: bool) {
    && q.n == p.n && q.m == p.m && q.x == p.x && q.z == p.z
    && q.c == (if bit == 0 then on else p.c) && q.i == (if bit == 2 then on else p.i)
    && q.d == (if bit == 3 then on else p.d) && q.v == (if bit == 6 then on else p.v)
    && (bit == 0 || bit == 2 || bit == 3 || bit == 6)
  }

  lemma FlagKeeps(s: Cpu, op: ImpliedOp)
    requires FlagBit(op).Some?
    ensures var t := C.ExecImplied(s, op);
            t == s.(p := t.p, pc := PcAfter(s, 1)) && WithBit(Status(s), Status(t), FlagBit(op).value, FlagOn(op))
  {
    FlagStep(s, op);
    FlagSets(s, op);
    StatusElsewhere(SetFlag(s, op), C.ExecImplied(s, op), PcAfter(s, 1));
  }

  lemma StatusElsewhere(u: Cpu, t: Cpu, pc: word)
    requires t == u.(pc := pc)
    ensures Status(t) == Status(u) && t.p == u.p
  {
  }

  lemma FlagStep(s: Cpu, op: ImpliedOp)
    requires FlagBit(op).Some?
    ensures C.ExecImplied(s, op) == SetFlag(s, op).(pc := PcAfter(s, 1))
  {
  }

  lemma FlagSets(s: Cpu, op: ImpliedOp)
    requires FlagBit(op).Some?
    ensures var t := SetFlag(s, op);
            t == s.(p := t.p) && WithBit(Status(s), Status(t), FlagBit(op).value, FlagOn(op))
  {
    match op {
      case Clc => StatusWithBit(s, SetFlag(s, Clc), 0, false);
      case Sec => StatusWithBit(s, SetFlag(s, Sec), 0, true);
      case Cli => StatusWithBit(s, SetFlag(s, Cli), 2, false);
      case Sei => StatusWithBit(s, SetFlag(s, Sei), 2, true);
      case Cld => StatusWithBit(s, SetFlag(s, Cld), 3, false);
      case Sed => StatusWithBit(s, SetFlag(s, Sed), 3, true);
      case Clv => StatusWithBit(s, SetFlag(s, Clv), 6, false);
    }
  }

  lemma StatusWithBit(s: Cpu, t: Cpu, bit: nat, on: bool)
    requires t == s.(p := t.p) && WithBit(s.p, t.p, bit, on)
    ensures WithBit(Status(s), Status(t), bit, on)
  {
  }

  lemma OneBitSet(p: P, q: P, bit: nat, on: bool, k: nat)
    requires k < 8 && WithBit(p, q, bit, on)
    ensures BitOf(ByteOf(q), k) <==> if k == bit then on else BitOf(ByteOf(p), k)
  {
    BitIsFlag(p, k);
    BitIsFlag(q, k);
    OneFlagSet(p, q, bit, on, k);
  }

  lemma OneFlagSet(p: P, q: P, bit: nat, on: bool, k: nat)
    requires k < 8 && WithBit(p, q, bit, on)
    ensures FlagAt(q, k) == if k == bit then on else FlagAt(p, k)
  {
  }

  // ---------------------------------------------------------------- jumps

  /** JMP goes to the word behind the opcode; JMP (a) to the word that is there, whose high byte is looked for in the
      same page. */
  lemma JumpsGo(s: Cpu)
    ensures C.ExecImplied(s, Jmp) == s.(pc := OperandWord(s))
    ensures var a := OperandWord(s);
            C.ExecImplied(s, JmpInd) ==
            s.(pc := s.mem[a] as int + 0x100 * s.mem[if a % 0x100 == 0xff then a - 0xff else a + 1] as int)
  {
    PageWrap(OperandWord(s));
  }

  lemma PageWrap(a: word)
    ensures a - a % 0x100 + Low8(a % 0x100 + 1) == if a % 0x100 == 0xff then a - 0xff else a + 1
  {
  }

  /** The flags that the branches look at are bits 7, 6, 0 and 1 of the packed status. */
  lemma BranchesOn(s: Cpu, on: bool)
    requires !s.p.n && !s.p.z
    ensures var b := ByteOf(Status(s));
            && C.Exec(s, Branch(Flag.N, on)) == BranchTo(s, BitOf(b, 7) == on)
            && C.Exec(s, Branch(V, on)) == BranchTo(s, BitOf(b, 6) == on)
            && C.Exec(s, Branch(Flag.C, on)) == BranchTo(s, BitOf(b, 0) == on)
            && C.Exec(s, Branch(Z, on)) == BranchTo(s, BitOf(b, 1) == on)
  {
    BitsAreFlags(Status(s));
  }

  // ---------------------------------------------------------------- the stack

  /** JSR goes to the word behind the opcode and leaves the address of its last byte on the stack, the high byte above
      the low one; the high byte of the target is read after that, which matters only if the pushes hit it. */
  lemma JsrGoes(s: Cpu)
    ensures var t := C.ExecImplied(s, CallSub);
            && t.pc == Behind(s, 1) as int + 0x100 * t.mem[PcAfter(s, 2)] as int
            && t == s.(pc := t.pc, sp := Low8(s.sp - 2),
                       mem := s.mem[Down(s, 0) := PcAfter(s, 2) / 0x100][Down(s, 1) := PcAfter(s, 2) % 0x100])
  {
  }

  /** RTS takes the word above SP and goes on behind it. */
  lemma RtsGoes(s: Cpu)
    ensures var word := s.mem[Up(s, 1)] as int + 0x100 * s.mem[Up(s, 2)] as int;
            C.ExecImplied(s, ReturnSub) == s.(pc := Low16(word + 1), sp := Low8(s.sp + 2))
  {
  }

  /** PHA and PHP store one byte at SP, PHP the packed status with bits 4 and 5 on. */
  lemma PushesStore(s: Cpu)
    ensures C.ExecImplied(s, PushA) == s.(pc := PcAfter(s, 1), sp := Low8(s.sp - 1), mem := s.mem[Down(s, 0) := s.a])
    ensures var b := ByteOf(Status(s).(x := true, m := true));
            C.ExecImplied(s, PushP) == s.(pc := PcAfter(s, 1), sp := Low8(s.sp - 1), mem := s.mem[Down(s, 0) := b])
  {
  }

  /** The bits of the packed status: N, V, one, B, D, I, Z and C. */
  lemma StatusBits(s: Cpu)
    requires !s.p.n && !s.p.z
    ensures var b := ByteOf(Status(s));
            && BitOf(b, 7) == Sign(s) && BitOf(b, 6) == s.p.v && BitOf(b, 5) && BitOf(b, 4) == s.p.x
            && BitOf(b, 3) == s.p.d && BitOf(b, 2) == s.p.i && BitOf(b, 1) == Zero(s) && BitOf(b, 0) == s.p.c
  {
    BitsAreFlags(Status(s));
  }

  /** PLA takes the byte above SP into A, PLP into the flags. */
  lemma PullsTake(s: Cpu)
    ensures var b := s.mem[Up(s, 1)];
            Takes(C.ExecImplied(s, PullA), s.(pc := PcAfter(s, 1), sp := Low8(s.sp + 1), a := b), b)
    ensures var t, b := C.ExecImplied(s, PullP), s.mem[Up(s, 1)];
            t == s.(pc := PcAfter(s, 1), sp := Low8(s.sp + 1), p := t.p, fn := t.fn, fz := t.fz) && FlagsTaken(t, b)
  {
    FlagsFrom(PullSp(s), Pulled(s));
  }

  /** The flags are the bits of a byte. */
  predicate FlagsTaken(t: Cpu, b: byte) {
    && Sign(t) == BitOf(b, 7) && t.p.v == BitOf(b, 6) && t.p.m == BitOf(b, 5) && t.p.x == BitOf(b, 4)
    && t.p.d == BitOf(b, 3) && t.p.i == BitOf(b, 2) && Zero(t) == BitOf(b, 1) && t.p.c == BitOf(b, 0)
    && !t.p.n && !t.p.z
  }

  lemma FlagsFrom(s: Cpu, b: byte)
    ensures var t := SetStatus(s, b); FlagsTaken(t, b) && t == s.(p := t.p, fn := t.fn, fz := t.fz)
  {
    FlagsAreBits(b);
    ByteRoundTrip(b);
    StatusLoaded(s, FlagsOf(b));
  }

  // ---------------------------------------------------------------- interrupts

  /** IRQ and BRK go to the word at 0xfffe, with an NMI to that at 0xfffa, as it is once the frame has been pushed, with
      interrupts off; the break bit tells BRK from the others. */
  lemma InterruptGoes(s: Cpu, brk: bool, nmi: bool)
    ensures var e := Interrupt(s, brk, nmi);
            && e.pc == (if nmi then e.mem[0xfffa] as int + 0x100 * e.mem[0xfffb] as int
                        else e.mem[0xfffe] as int + 0x100 * e.mem[0xffff] as int)
            && e == s.(pc := e.pc, sp := Low8(s.sp - 3), mem := e.mem, p := s.p.(i := true, x := brk))
  {
  }

  /** The frame is in page one, so the word is the one that was there before. */
  lemma HandlerAtVector(s: Cpu, brk: bool, nmi: bool)
    ensures Interrupt(s, brk, nmi).pc ==
            if nmi then s.mem[0xfffa] as int + 0x100 * s.mem[0xfffb] as int
            else s.mem[0xfffe] as int + 0x100 * s.mem[0xffff] as int
  {
    InterruptGoes(s, brk, nmi);
    InterruptFrame(s, brk, nmi);
  }

  /** BRK leaves the address two bytes behind its opcode. */
  lemma BrkIs(s: Cpu, nmi: bool)
    ensures Brk(s, nmi) == Interrupt(s.(pc := PcAfter(s, 2)), true, nmi)
  {
  }

  /** RTI takes the flags from the byte above SP and the program counter from the word above that. */
  lemma RtiGoes(s: Cpu)
    ensures var t, word := C.ExecImplied(s, ReturnInt), s.mem[Up(s, 2)] as int + 0x100 * s.mem[Up(s, 3)] as int;
            t == s.(pc := word, sp := Low8(s.sp + 3), p := t.p, fn := t.fn, fz := t.fz)
            && FlagsTaken(t, s.mem[Up(s, 1)])
  {
    RtiIs(s);
    FlagsFrom(s, s.mem[Up(s, 1)]);
  }

  lemma RtiIs(s: Cpu)
    ensures C.ExecImplied(s, ReturnInt) ==
            SetStatus(s, s.mem[Up(s, 1)]).(pc := s.mem[Up(s, 2)] as int + 0x100 * s.mem[Up(s, 3)] as int,
                                           sp := Low8(s.sp + 3))
  {
  }

  // ---------------------------------------------------------------- the unstable stores

  /** What SHA, SHX and SHY store: what the register and the high byte of the base address plus one have in common. If
      the index carries, it also takes the place of the high byte of the address. */
  predicate StoredHigh(s: Cpu, t: Cpu, reg: byte, base: word, index: byte, size: nat) {
    var v := BitAnd(reg, (base / 0x100 + 1) % 0x100);
    var low := base % 0x100 + index;
    t == s.(pc := PcAfter(s, size),
            mem := s.mem[if low > 0xff then low - 0x100 + 0x100 * v else base + index := v])
  }

  lemma HighStored(s: Cpu, size: nat, reg: byte, base: word, index: byte)
    ensures StoredHigh(s, C.StoreHigh(IncPc(s, size), reg, base, index), reg, base, index, size)
  {
    LowIsRemainder(base / 0x100 + 1);
    LowIsRemainder(base + index);
    HighAddress(base, index);
  }

  lemma HighAddress(base: word, index: byte)
    ensures base % 0x100 + index > 0xff ==> (base + index) % 0x100 == base % 0x100 + index - 0x100
    ensures base % 0x100 + index <= 0xff ==> base + index < 0x1_0000
  {
  }

  /** SHA stores what A and X have in common, Y being the index. */
  lemma ShaWrites(s: Cpu)
    ensures StoredHigh(s, C.Exec(s, High(AandX, IndY)), BitAnd(s.a, s.x), ZeroWord(s, Behind(s, 1)), s.y, 2)
    ensures StoredHigh(s, C.Exec(s, High(AandX, AbsY)), BitAnd(s.a, s.x), OperandWord(s), s.y, 3)
  {
    IndirectHighIs(s);
    AbsoluteHighIs(s, AandX, AbsY);
    HighStored(s, 2, BitAnd(s.a, s.x), ZeroWord(s, Behind(s, 1)), s.y);
    HighStored(s, 3, BitAnd(s.a, s.x), OperandWord(s), s.y);
  }

  lemma IndirectHighIs(s: Cpu)
    ensures C.Exec(s, High(AandX, IndY)) ==
            C.StoreHigh(IncPc(s, 2), BitAnd(s.a, s.x), ZeroWord(s, Behind(s, 1)), s.y)
  {
  }

  lemma AbsoluteHighIs(s: Cpu, r: Source, mode: Mode)
    requires mode == AbsX || mode == AbsY
    ensures C.Exec(s, High(r, mode)) ==
            C.StoreHigh(IncPc(s, 3), C.SourceOf(s, r), OperandWord(s), if mode == AbsX then s.x else s.y)
  {
    assert P2(s) == OperandWord(s);
  }

  /** SHX and SHY store X and Y, each with the other as the index. */
  lemma ShxShyWrite(s: Cpu)
    ensures StoredHigh(s, C.Exec(s, High(X, AbsY)), s.x, OperandWord(s), s.y, 3)
    ensures StoredHigh(s, C.Exec(s, High(Y, AbsX)), s.y, OperandWord(s), s.x, 3)
  {
    AbsoluteHighIs(s, X, AbsY);
    AbsoluteHighIs(s, Y, AbsX);
    HighStored(s, 3, s.x, OperandWord(s), s.y);
    HighStored(s, 3, s.y, OperandWord(s), s.x);
  }

  /** SHS is SHA and also puts its register into SP. */
  lemma ShsWrites(s: Cpu)
    ensures C.Exec(s, HighToSp) == C.Exec(s, High(AandX, AbsY)).(sp := BitAnd(s.a, s.x))
  {
  }

  /** One step is the instruction that the byte at the program counter stands for. */
  lemma StepFetches(s: Cpu)
    ensures C.Step(s) == C.Exec(s, C.Decode(s.mem[s.pc]))
    ensures forall op :: C.Exec(s, Implied(op)) == C.ExecImplied(s, op)
  {
  }
}
