/**
 The mode invariant of the 65816: whatever program runs and whenever interrupts and resets come, in
 emulation mode the stack pointer is in page one, with short index registers their high bytes are
 zero, and `reg_p` never holds the two flags that are kept lazily.
 */
module Modes65816 {
  import opened Basics
  import opened BlockMove
  import opened Interrupts65816
  import opened Stack65816
  import opened StatusRegister
  import opened Wdc65816

  // ---------------------------------------------------------------- opcodes

  /** The instructions that have to do with the stack pointer, the index registers, the mode or the M
      and X flags. All others are `Plain`. */
  datatype Instr = Call(call: Call) | Push(push: Push) | Pull(pull: Pull) | Index(index: Index) | Mode(mode: Mode)
    | Plain

  datatype Call = CBrk | CCop | CJsr | CJsl | CJsrIndX | CRts | CRtl | CRti

  datatype Push = PPea | PPei | PPer | PPha | PPhb | PPhd | PPhk | PPhp | PPhx | PPhy

  datatype Pull = LPla | LPlb | LPld | LPlp | LPlx | LPly

  /** Loads take the operand from memory; the others are register to register. */
  datatype Index = LoadX | LoadY | IncX | IncY | DecX | DecY | Tax | Tay | Tsx | Txy | Tyx

  datatype Mode = Mvn | Mvp | Rep | Sep | Tcs | Txs | XceOp

  function Decode(op: byte): Instr {
    match op
    case 0x00 => Call(CBrk)
    case 0x02 => Call(CCop)
    case 0x20 => Call(CJsr)
    case 0x22 => Call(CJsl)
    case 0xfc => Call(CJsrIndX)
    case 0x60 => Call(CRts)
    case 0x6b => Call(CRtl)
    case 0x40 => Call(CRti)
    case 0xf4 => Push(PPea)
    case 0xd4 => Push(PPei)
    case 0x62 => Push(PPer)
    case 0x48 => Push(PPha)
    case 0x8b => Push(PPhb)
    case 0x0b => Push(PPhd)
    case 0x4b => Push(PPhk)
    case 0x08 => Push(PPhp)
    case 0xda => Push(PPhx)
    case 0x5a => Push(PPhy)
    case 0x68 => Pull(LPla)
    case 0xab => Pull(LPlb)
    case 0x2b => Pull(LPld)
    case 0x28 => Pull(LPlp)
    case 0xfa => Pull(LPlx)
    case 0x7a => Pull(LPly)
    case 0x44 => Mode(Mvp)
    case 0x54 => Mode(Mvn)
    case 0xc2 => Mode(Rep)
    case 0xe2 => Mode(Sep)
    case 0x1b => Mode(Tcs)
    case 0x9a => Mode(Txs)
    case 0xfb => Mode(XceOp)
    case _ => DecodeIndex(op)
  }

  function DecodeIndex(op: byte): Instr {
    match op
    case 0xa2 => Index(LoadX)
    case 0xa6 => Index(LoadX)
    case 0xae => Index(LoadX)
    case 0xb6 => Index(LoadX)
    case 0xbe => Index(LoadX)
    case 0xa0 => Index(LoadY)
    case 0xa4 => Index(LoadY)
    case 0xac => Index(LoadY)
    case 0xb4 => Index(LoadY)
    case 0xbc => Index(LoadY)
    case 0xe8 => Index(IncX)
    case 0xc8 => Index(IncY)
    case 0xca => Index(DecX)
    case 0x88 => Index(DecY)
    case 0xaa => Index(Tax)
    case 0xa8 => Index(Tay)
    case 0xba => Index(Tsx)
    case 0x9b => Index(Txy)
    case 0xbb => Index(Tyx)
    case _ => Plain
  }

  // ---------------------------------------------------------------- execution

  /** What a plain instruction may change: everything but the stack pointer, the index registers, the
      mode, the M and X flags and the two bits that `reg_p` does not use. `o` says how. */
  function Rest(s: Cpu, o: Cpu): Cpu {
    o.(sp := s.sp, x := s.x, y := s.y, emul := s.emul, p := o.p.(m := s.p.m, x := s.p.x, n := s.p.n, z := s.p.z))
  }

  function ExecCall(s: Cpu, i: Call): Cpu {
    match i
    case CBrk => SoftwareInterrupt(s, BrkVector)
    case CCop => SoftwareInterrupt(s, CopVector)
    case CJsr => Jsr(s)
    case CJsl => Jsl(s)
    case CJsrIndX => JsrIndX(s)
    case CRts => Rts(s)
    case CRtl => Rtl(s)
    case CRti => Rti(s)
  }

  function ExecPush(s: Cpu, i: Push): Cpu {
    match i
    case PPea => Pea(s)
    case PPei => Pei(s)
    case PPer => Per(s)
    case PPha => Pha(s)
    case PPhb => PushByte(s, s.dbr)
    case PPhd => Phd(s)
    case PPhk => PushByte(s, s.pbr)
    case PPhp => Php(s)
    case PPhx => PushIndex(s, s.x)
    case PPhy => PushIndex(s, s.y)
  }

  function ExecPull(s: Cpu, i: Pull): Cpu {
    match i
    case LPla => Pla(s)
    case LPlb => Plb(s)
    case LPld => Pld(s)
    case LPlp => Plp(s)
    case LPlx => Plx(s)
    case LPly => Ply(s)
  }

  /** The value an index register gets: one byte if the registers are short. */
  function Short(s: Cpu, v: int): word {
    if X8(s) then Low8(v) else Low16(v)
  }

  /** `operand` is the value that a load finds in memory: LDX and LDY read one byte or two. TXY and TYX
      do not mask. */
  function ExecIndex(s: Cpu, i: Index, operand: word): Cpu {
    match i
    case LoadX => SetIndexX(s, Short(s, operand))
    case LoadY => SetIndexY(s, Short(s, operand))
    case IncX => SetIndexX(s, Short(s, s.x + 1))
    case IncY => SetIndexY(s, Short(s, s.y + 1))
    case DecX => SetIndexX(s, Short(s, s.x - 1))
    case DecY => SetIndexY(s, Short(s, s.y - 1))
    case Tax => SetIndexX(s, Short(s, s.c))
    case Tay => SetIndexY(s, Short(s, s.c))
    case Tsx => SetIndexX(s, Short(s, s.sp))
    case Txy => SetIndexY(s, s.x)
    case Tyx => SetIndexX(s, s.y)
  }

  function SetIndexX(s: Cpu, v: word): Cpu {
    SetNZ(s.(x := v), v, X8(s))
  }

  function SetIndexY(s: Cpu, v: word): Cpu {
    SetNZ(s.(y := v), v, X8(s))
  }

  /** `0x100 | v` */
  function Or100(v: word): word {
    if v / 0x100 % 2 == 1 then v else v + 0x100
  }

  function ExecMode(s: Cpu, i: Mode): Cpu {
    match i
    case Mvn => Move(s, true)
    case Mvp => Move(s, false)
    case Rep => RepSep(s, false)
    case Sep => RepSep(s, true)
    case Tcs => IncPc(s, 1).(sp := if s.emul then Or100(A(s)) else s.c)
    case Txs => IncPc(s, 1).(sp := if s.emul then Or100(s.x) else s.x)
    case XceOp => Xce(s)
  }

  /** One instruction. `operand` is what a load of an index register reads and `pc` where it leaves the
      program counter, which depends on the addressing mode. */
  function Exec(s: Cpu, i: Instr, o: Cpu, operand: word): Cpu {
    match i
    case Call(j) => ExecCall(s, j)
    case Push(j) => ExecPush(s, j)
    case Pull(j) => ExecPull(s, j)
    case Index(j) => ExecIndex(s, j, operand).(pc := o.pc)
    case Mode(j) => ExecMode(s, j)
    case Plain => Rest(s, o)
  }

  datatype Event = Opcode(op: byte, o: Cpu, operand: word) | Irq | Nmi | Res

  function Step(s: Cpu, e: Event): Cpu {
    match e
    case Opcode(op, o, operand) => Exec(s, Decode(op), o, operand)
    case Irq => Interrupt(s, IrqVector)
    case Nmi => Interrupt(s, NmiVector)
    case Res => Reset(s)
  }

  function After(s: Cpu, events: seq<Event>): Cpu {
    if events == [] then s else Step(After(s, events[..|events| - 1]), events[|events| - 1])
  }

  // ---------------------------------------------------------------- the invariant

  lemma CallKeepsMode(s: Cpu, i: Call)
    requires ModeOk(s)
    ensures ModeOk(ExecCall(s, i))
  {
  }

  lemma PushKeepsMode(s: Cpu, i: Push)
    requires ModeOk(s)
    ensures ModeOk(ExecPush(s, i))
  {
  }

  lemma PullKeepsMode(s: Cpu, i: Pull)
    requires ModeOk(s)
    ensures ModeOk(ExecPull(s, i))
  {
  }

  lemma IndexKeepsMode(s: Cpu, i: Index, operand: word)
    requires ModeOk(s)
    ensures ModeOk(ExecIndex(s, i, operand))
  {
  }

  lemma ModeKeepsMode(s: Cpu, i: Mode)
    requires ModeOk(s)
    ensures ModeOk(ExecMode(s, i))
  {
    match i {
      case Rep => RepSepKeepsMode(s, false);
      case Sep => RepSepKeepsMode(s, true);
      case _ =>
    }
  }

  lemma RepSepKeepsMode(s: Cpu, v: bool)
    requires ModeOk(s)
    ensures ModeOk(RepSep(s, v))
  {
  }

  lemma InterruptKeepsMode(s: Cpu, k: Vector)
    requires ModeOk(s)
    ensures ModeOk(Interrupt(s, k))
  {
  }

  lemma StepKeepsMode(s: Cpu, e: Event)
    requires ModeOk(s)
    ensures ModeOk(Step(s, e))
  {
    match e {
      case Opcode(op, o, operand) =>
        match Decode(op) {
          case Call(j) => CallKeepsMode(s, j);
          case Push(j) => PushKeepsMode(s, j);
          case Pull(j) => PullKeepsMode(s, j);
          case Index(j) => IndexKeepsMode(s, j, operand);
          case Mode(j) => ModeKeepsMode(s, j);
          case Plain =>
        }
      case Irq => InterruptKeepsMode(s, IrqVector);
      case Nmi => InterruptKeepsMode(s, NmiVector);
      case Res =>
    }
  }

  /** Every state that any sequence of instructions, interrupts and resets leads to is well-formed. */
  lemma {:induction false} ModeAlways(m: Memory, events: seq<Event>)
    ensures ModeOk(After(PowerOn(m), events))
  {
    if events != [] {
      ModeAlways(m, events[..|events| - 1]);
      StepKeepsMode(After(PowerOn(m), events[..|events| - 1]), events[|events| - 1]);
    }
  }

  // ---------------------------------------------------------------- index registers

  /** In a well-formed state the steps of the index registers undo each other, in either width. */
  lemma StepsUndone(s: Cpu, v: word)
    requires ModeOk(s)
    ensures ExecIndex(ExecIndex(s, IncX, v), DecX, v).x == s.x
    ensures ExecIndex(ExecIndex(s, DecY, v), IncY, v).y == s.y
  {
  }

  /** TXY and TYX do not mask, unlike TAX, TAY and TSX: in every state that can be reached they leave what
      masking ones would. */
  lemma TransfersNeedNoMask(m: Memory, events: seq<Event>, v: word)
    ensures var s := After(PowerOn(m), events);
            && ExecIndex(s, Txy, v) == SetIndexY(s, Short(s, s.x))
            && ExecIndex(s, Tyx, v) == SetIndexX(s, Short(s, s.y))
  {
    ModeAlways(m, events);
  }

  /** TXS after TSX restores the stack pointer, except with short index registers in native mode, where
      its high byte is lost. */
  lemma StackPointerBack(s: Cpu, v: word)
    requires ModeOk(s)
    ensures ExecMode(ExecIndex(s, Tsx, v), Txs).sp == if X8(s) && !s.emul then s.sp % 0x100 else s.sp
  {
    LowIsRemainder(s.sp);
  }
}
