/**
 The 65816 core (65816core.c): registers, lazy flags, memory and the stack. Words and bytes are
 integers; C's truncation to a register's width is `Low8` or `Low16`.
 */
module Wdc65816 {
  import opened Basics
  import opened StatusRegister

  // ---------------------------------------------------------------- state

  const SPACE: nat := 0x100_0000

  type Memory = m: seq<byte> | |m| == SPACE witness seq(SPACE, _ => 0)

  /** The registers and the memory. `c` is the 16-bit accumulator, `fn` and `fz` are the lazily kept
      negative and zero flags. */
  datatype Cpu = Cpu(
    c: word, x: word, y: word, dbr: byte, pbr: byte, dpr: word, sp: word,
    p: P, fn: byte, fz: byte, emul: bool, pc: word, mem: Memory)

  /** The state the processor starts in, before its first reset; memory is arbitrary. */
  function PowerOn(m: Memory): Cpu {
    Cpu(0, 0, 0, 0, 0, 0, 0x100, P(false, false, false, false, false, false, false, false), 0, 0, true, 0, m)
  }

  function A(s: Cpu): byte {
    s.c % 0x100
  }

  function SetA(s: Cpu, v: int): Cpu {
    s.(c := s.c / 0x100 * 0x100 + v % 0x100)
  }

  /** `LOCAL_65816_M`, `LOCAL_65816_X`: eight-bit accumulator, eight-bit index registers */
  predicate M8(s: Cpu) {
    s.emul || s.p.m
  }

  predicate X8(s: Cpu) {
    s.emul || s.p.x
  }

  predicate Sign(s: Cpu) {
    s.fn >= 0x80
  }

  predicate Zero(s: Cpu) {
    s.fz == 0
  }

  /** `LOCAL_SET_NZ` */
  function SetNZ(s: Cpu, v: int, bits8: bool): Cpu {
    if bits8 then s.(fn := v % 0x100, fz := v % 0x100)
    else
      var n := v / 0x100 % 0x100;
      s.(fn := n, fz := OrNonZero(v % 0x100, n))
  }

  /** The low byte of `val | flag_n`: only whether it is zero matters. */
  function OrNonZero(a: byte, b: byte): byte {
    if a == 0 then b else a
  }

  /** `LOCAL_SET_STATUS` */
  function SetStatus(s: Cpu, b: byte): Cpu {
    var f := FlagsOf(b);
    s.(p := f.(n := false, z := false), fz := if f.z then 0 else 1, fn := b)
  }

  /** `LOCAL_65816_STATUS`: the status byte with the lazy flags packed in */
  function Status(s: Cpu): P {
    s.p.(n := s.p.n || Sign(s), z := s.p.z || Zero(s))
  }

  /** `LOCAL_STATUS`: the same with the unused bit set */
  function StatusEmul(s: Cpu): P {
    Status(s).(m := true)
  }

  /** `LOCAL_STATUS`, or `LOCAL_65816_STATUS` in native mode */
  function StatusByte(s: Cpu): byte {
    ByteOf(if s.emul then StatusEmul(s) else Status(s))
  }

  /** Loading a packed status: the lazy flags take over from their bits, which `reg_p` never keeps. */
  lemma StatusLoaded(s: Cpu, p: P)
    ensures var r := SetStatus(s, ByteOf(p));
            && r.p == p.(n := false, z := false) && Sign(r) == p.n && Zero(r) == p.z
            && r == s.(p := r.p, fn := r.fn, fz := r.fz)
  {
    FlagsRoundTrip(p);
    SignBit(p);
  }

  // ---------------------------------------------------------------- memory, program counter

  type Addr = a: nat | a < SPACE

  function Load(m: Memory, a: Addr): byte {
    m[a]
  }

  function Write(m: Memory, a: Addr, v: byte): Memory {
    m[a := v]
  }

  /** `STORE_LONG`; the value is truncated to a byte. */
  function StoreLong(s: Cpu, a: Addr, v: int): Cpu {
    s.(mem := Write(s.mem, a, Low8(v)))
  }

  /** Addresses beyond the last bank come round to the first. */
  function InSpace(a: nat): Addr {
    if a < SPACE then a else if a < 2 * SPACE then a - SPACE else a % SPACE
  }

  /** `FETCH_PARAM`: from the program bank; the address within it is not wrapped. */
  function Fetch(s: Cpu, a: nat): byte {
    Load(s.mem, InSpace(a + s.pbr * 0x1_0000))
  }

  /** `INC_PC` */
  function IncPc(s: Cpu, k: nat): Cpu {
    s.(pc := Low16(s.pc + k))
  }

  // ---------------------------------------------------------------- stack

  /** The stack pointer after a push or a pull; in emulation mode it stays in page one. */
  function Below(emul: bool, sp: word): word {
    if emul then 0x100 + Low8(sp - 1) else Low16(sp - 1)
  }

  function Above(emul: bool, sp: word): word {
    if emul then 0x100 + Low8(sp + 1) else Low16(sp + 1)
  }

  /** A pull undoes a push; in emulation mode both wrap inside page one. */
  lemma BelowAbove(emul: bool, sp: word)
    requires emul ==> 0x100 <= sp < 0x200
    ensures Above(emul, Below(emul, sp)) == sp
    ensures emul ==> Below(emul, sp) == if sp == 0x100 then 0x1ff else sp - 1
    ensures !emul ==> Below(emul, sp) == if sp == 0 then 0xffff else sp - 1
  {
  }

  function SpDown(s: Cpu): word {
    Below(s.emul, s.sp)
  }

  function SpUp(s: Cpu): word {
    Above(s.emul, s.sp)
  }

  /** `PUSH` */
  function Push(s: Cpu, v: int): Cpu {
    StoreLong(s, s.sp, v).(sp := SpDown(s))
  }

  /** `PULL`: the new stack pointer, and the byte it points at */
  function PullSp(s: Cpu): Cpu {
    s.(sp := SpUp(s))
  }

  function Pulled(s: Cpu): byte {
    Load(s.mem, SpUp(s))
  }

  // ---------------------------------------------------------------- interrupts

  datatype Vector = IrqVector | NmiVector | BrkVector | CopVector

  /** The address the handler's address is read from. */
  function VectorOf(k: Vector, emul: bool): word {
    match k
    case IrqVector => if emul then 0xfffe else 0xffee
    case NmiVector => if emul then 0xfffa else 0xffea
    case BrkVector => if emul then 0xfffe else 0xffe6
    case CopVector => if emul then 0xfff4 else 0xffe4
  }

  /** `LOAD_INT_ADDR` */
  function LoadIntAddr(s: Cpu, a: word): Cpu {
    s.(pc := Load(s.mem, a) + 0x100 * Load(s.mem, a + 1))
  }

  /** The frame: the program bank in native mode, the program counter, the status byte. */
  function PushFrame(s: Cpu): Cpu {
    var s1 := if s.emul then s else Push(s, s.pbr);
    var s2 := Push(Push(s1, s.pc / 0x100), s.pc);
    Push(s2, StatusByte(s2))
  }

  /** The B bit is set by BRK and COP and cleared by the rest, in emulation mode. */
  function Entering(s: Cpu, k: Vector): Cpu {
    if s.emul then s.(p := s.p.(x := k == BrkVector || k == CopVector)) else s
  }

  /** The handler runs in bank zero, with interrupts and decimal mode off. */
  function EnterHandler(s: Cpu, vector: word): Cpu {
    LoadIntAddr(s.(p := s.p.(d := false).(i := true)), vector).(pbr := 0)
  }

  /** What `IRQ`, `NMI`, `BRK` and `COP` share. */
  function Interrupt(s: Cpu, k: Vector): Cpu {
    EnterHandler(PushFrame(Entering(s, k)), VectorOf(k, s.emul))
  }

  /** `BRK`, `COP`: the signature byte is skipped first. */
  function SoftwareInterrupt(s: Cpu, k: Vector): Cpu {
    Interrupt(IncPc(IncPc(s, 1), 1), k)
  }

  function PullPc(s: Cpu): Cpu {
    PullSp(PullSp(s)).(pc := Pulled(s) + 0x100 * Pulled(PullSp(s)))
  }

  /** `RTI` */
  function Rti(s: Cpu): Cpu {
    var s1 := PullSp(IncPc(s, 1));
    var s2 := Narrow(SetStatus(s1, Pulled(s)));
    var s4 := PullPc(s2);
    if s.emul then s4 else PullSp(s4).(pbr := Pulled(s4))
  }

  /** With eight-bit index registers their high bytes are lost. */
  function Narrow(s: Cpu): Cpu {
    if X8(s) then s.(x := Low8(s.x), y := Low8(s.y)) else s
  }
}
