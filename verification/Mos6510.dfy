/**
 The 6510: registers, lazy flags, plain RAM, and the instructions that use the stack (6510core.c). The
 program counter is kept to 16 bits and the zero-page accessors wrap in page zero.
 */
module Mos6510 {
  import opened Basics
  import opened StatusRegister

  type Memory = m: seq<byte> | |m| == 0x1_0000 witness seq(0x1_0000, _ => 0)

  /** `fn` and `fz` are the lazily kept negative and zero flags; in `p`, bit 5 is the unused bit and
      bit 4 the break bit. */
  datatype Cpu = Cpu(a: byte, x: byte, y: byte, sp: byte, pc: word, p: P, fn: byte, fz: byte, mem: Memory)

  // ---------------------------------------------------------------- memory, program counter

  function Load(s: Cpu, a: nat): byte {
    s.mem[Low16(a)]
  }

  function LoadZero(s: Cpu, a: nat): byte {
    s.mem[Low8(a)]
  }

  /** `LOAD_ZERO_ADDR`: a pointer in page zero */
  function LoadZeroAddr(s: Cpu, a: nat): word {
    LoadZero(s, a) + 0x100 * LoadZero(s, a + 1)
  }

  /** The value is truncated to a byte. */
  function Store(s: Cpu, a: nat, v: int): Cpu {
    s.(mem := s.mem[Low16(a) := Low8(v)])
  }

  function IncPc(s: Cpu, k: nat): Cpu {
    s.(pc := Low16(s.pc + k))
  }

  // ---------------------------------------------------------------- status

  /** `LOCAL_SET_NZ` */
  function SetNZ(s: Cpu, v: int): Cpu {
    s.(fn := Low8(v), fz := Low8(v))
  }

  predicate Sign(s: Cpu) {
    s.fn >= 0x80
  }

  predicate Zero(s: Cpu) {
    s.fz == 0
  }

  /** `LOCAL_STATUS` */
  function Status(s: Cpu): P {
    s.p.(n := s.p.n || Sign(s), z := s.p.z || Zero(s), m := true)
  }

  /** `LOCAL_SET_STATUS` */
  function SetStatus(s: Cpu, b: byte): Cpu {
    var f := FlagsOf(b);
    s.(p := f.(n := false, z := false), fz := if f.z then 0 else 1, fn := b)
  }

  /** Loading a packed status: the lazy flags take over from their bits, which `reg_p` never keeps. */
  lemma StatusLoaded(s: Cpu, p: P)
    ensures var r := SetStatus(s, ByteOf(p));
            && r.p == p.(n := false, z := false) && Sign(r) == p.n && Zero(r) == p.z
            && r == s.(p := r.p, fn := r.fn, fz := r.fz)
  {
    FlagsRoundTrip(p);
    SignBit(p);
  }

  // ---------------------------------------------------------------- stack

  function Push(s: Cpu, v: int): Cpu {
    Store(s, 0x100 + s.sp, v).(sp := Low8(s.sp - 1))
  }

  function PullSp(s: Cpu): Cpu {
    s.(sp := Low8(s.sp + 1))
  }

  function Pulled(s: Cpu): byte {
    Load(s, 0x100 + Low8(s.sp + 1))
  }

  function Pha(s: Cpu): Cpu {
    IncPc(Push(s, s.a), 1)
  }

  function Pla(s: Cpu): Cpu {
    var v := Pulled(s);
    IncPc(SetNZ(PullSp(s).(a := v), v), 1)
  }

  function Php(s: Cpu): Cpu {
    IncPc(Push(s, ByteOf(Status(s).(x := true))), 1)
  }

  function Plp(s: Cpu): Cpu {
    IncPc(SetStatus(PullSp(s), Pulled(s)), 1)
  }

  /** The high byte of the target is read after the return address has been pushed. */
  function Jsr(s: Cpu): Cpu {
    var s1 := IncPc(s, 2);
    var s2 := Push(Push(s1, s1.pc / 0x100), s1.pc % 0x100);
    s2.(pc := Load(s, s.pc + 1) + 0x100 * Load(s2, s2.pc))
  }

  function Rts(s: Cpu): Cpu {
    var s1 := PullSp(s);
    IncPc(PullSp(s1).(pc := Pulled(s) + 0x100 * Pulled(s1)), 1)
  }

  // ---------------------------------------------------------------- interrupts

  /** The vector is chosen once the frame has been pushed, by whether an NMI is pending then. */
  function VectorOf(nmi: bool): word {
    if nmi then 0xfffa else 0xfffe
  }

  /** `DO_INTERRUPT` for IRQ and NMI, and the common part of `BRK`: the break bit tells them apart. */
  function Interrupt(s: Cpu, brk: bool, nmi: bool): Cpu {
    var s1 := PushPlace(s, brk);
    EnterHandler(Push(s1, ByteOf(Status(s1))), VectorOf(nmi))
  }

  function PushPlace(s: Cpu, brk: bool): Cpu {
    var s1 := s.(p := s.p.(x := brk));
    Push(Push(s1, s1.pc / 0x100), s1.pc % 0x100)
  }

  /** The handler runs with interrupts off. */
  function EnterHandler(s: Cpu, vector: word): Cpu {
    s.(p := s.p.(i := true), pc := Load(s, vector) + 0x100 * Load(s, vector + 1))
  }

  /** `BRK`: the byte behind the opcode is skipped. An NMI may come in between. */
  function Brk(s: Cpu, nmi: bool): Cpu {
    Interrupt(IncPc(s, 2), true, nmi)
  }

  function Rti(s: Cpu): Cpu {
    var s1 := SetStatus(PullSp(s), Pulled(s));
    var s2 := PullSp(s1);
    PullSp(s2).(pc := Pulled(s1) + 0x100 * Pulled(s2))
  }

  // ---------------------------------------------------------------- interrupts return

  /** The `k`-th byte below `sp` in page one. */
  function Slot(sp: byte, k: nat): word {
    0x100 + Low8(sp - k)
  }

  lemma InterruptFrame(s: Cpu, brk: bool, nmi: bool)
    ensures var e := Interrupt(s, brk, nmi);
            && e.mem[Slot(s.sp, 0)] == s.pc / 0x100 && e.mem[Slot(s.sp, 1)] == s.pc % 0x100
            && e.mem[Slot(s.sp, 2)] == ByteOf(Status(s).(x := brk))
            && e.sp == Low8(s.sp - 3) && e.p.i && e.a == s.a && e.x == s.x && e.y == s.y
            && forall a: word :: a != Slot(s.sp, 0) && a != Slot(s.sp, 1) && a != Slot(s.sp, 2) ==> e.mem[a] == s.mem[a]
  {
  }

  /** A handler that began in state `e` is about to execute RTI in state `h`. */
  ghost predicate HandlerDone(sp: byte, e: Cpu, h: Cpu) {
    && h.sp == e.sp && h.x == e.x && h.y == e.y && h.a == e.a
    && forall k :: 0 <= k < 3 ==> h.mem[Slot(sp, k)] == e.mem[Slot(sp, k)]
  }

  /** RTI returns from an interrupt to the same place with the same registers and flags, up to the
      unused bit and the break bit. */
  lemma InterruptReturns(s: Cpu, brk: bool, nmi: bool, h: Cpu)
    requires !s.p.n && !s.p.z && HandlerDone(s.sp, Interrupt(s, brk, nmi), h)
    ensures var r := Rti(h);
            && r.pc == s.pc && r.sp == s.sp && r.a == s.a && r.x == s.x && r.y == s.y && r.mem == h.mem
            && r.p == s.p.(m := true, x := brk) && Sign(r) == Sign(s) && Zero(r) == Zero(s)
  {
    InterruptFrame(s, brk, nmi);
    FrameRestored(h, s.sp, s.pc, Status(s).(x := brk));
  }

  lemma FrameRestored(h: Cpu, sp: byte, pc: word, p: P)
    requires h.sp == Low8(sp - 3) && h.mem[Slot(sp, 0)] == pc / 0x100 && h.mem[Slot(sp, 1)] == pc % 0x100
    requires h.mem[Slot(sp, 2)] == ByteOf(p)
    ensures var r := Rti(h);
            && r.pc == pc && r.sp == sp && r.a == h.a && r.x == h.x && r.y == h.y && r.mem == h.mem
            && r.p == p.(n := false, z := false) && Sign(r) == p.n && Zero(r) == p.z
  {
    RtiReads(h, sp);
    StatusLoaded(h, p);
  }

  lemma RtiReads(h: Cpu, sp: byte)
    requires h.sp == Low8(sp - 3)
    ensures var pc := h.mem[Slot(sp, 1)] as int + 0x100 * h.mem[Slot(sp, 0)] as int;
            Rti(h) == SetStatus(h, h.mem[Slot(sp, 2)]).(sp := sp, pc := pc)
  {
  }
}
