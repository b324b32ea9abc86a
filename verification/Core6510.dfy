/** One instruction on 6510core.c, on plain RAM and without DRIVE_CPU and C64DTV. */
module Core6510 {
  import opened Basics
  import opened Mos6510
  import opened O = Opcodes6510

  /** The switch of 6510core.c (lines 2352 to 3366), read off opcode by opcode, 32 of them at a time. `CoreDtv` has the
      other file's switch, read off on its own: that both come out as the same table is what `DecodersAgree` says, and
      that the table is the one laid out by the fields of the opcodes `DecodesByFields`. */
  function Decode(op: byte): Instr {
    match op / 0x20
    case 0 => DecodeRow0(op)
    case 1 => DecodeRow1(op)
    case 2 => DecodeRow2(op)
    case 3 => DecodeRow3(op)
    case 4 => DecodeRow4(op)
    case 5 => DecodeRow5(op)
    case 6 => DecodeRow6(op)
    case _ => DecodeRow7(op)
  }

  function DecodeRow0(op: byte): Instr {
    match op
    case 0x01 => Read(Ora, IndX) case 0x03 => Modify(Slo, IndX) case 0x04 => Read(Noop, Zp) case 0x05 => Read(Ora, Zp)
    case 0x06 => Modify(Asl, Zp) case 0x07 => Modify(Slo, Zp) case 0x08 => Implied(PushP) case 0x09 => Read(Ora, Imm)
    case 0x0a => Implied(AslA) case 0x0b => Read(Anc, Imm) case 0x0c => Read(Noop, Abs) case 0x0d => Read(Ora, Abs)
    case 0x0e => Modify(Asl, Abs) case 0x0f => Modify(Slo, Abs) case 0x10 => Branch(N, false)
    case 0x11 => Read(Ora, IndY) case 0x13 => Modify(Slo, IndY) case 0x14 => Read(Noop, ZpX)
    case 0x15 => Read(Ora, ZpX) case 0x16 => Modify(Asl, ZpX) case 0x17 => Modify(Slo, ZpX) case 0x18 => Implied(Clc)
    case 0x19 => Read(Ora, AbsY) case 0x1a => Implied(Nop) case 0x1b => Modify(Slo, AbsY)
    case 0x1c => Read(Noop, AbsX) case 0x1d => Read(Ora, AbsX) case 0x1e => Modify(Asl, AbsX)
    case 0x1f => Modify(Slo, AbsX)
    case _ => Other
  }

  function DecodeRow1(op: byte): Instr {
    match op
    case 0x20 => Implied(CallSub) case 0x21 => Read(And, IndX) case 0x23 => Modify(Rla, IndX)
    case 0x24 => Read(Bit, Zp) case 0x25 => Read(And, Zp) case 0x26 => Modify(Rol, Zp) case 0x27 => Modify(Rla, Zp)
    case 0x28 => Implied(PullP) case 0x29 => Read(And, Imm) case 0x2a => Implied(RolA) case 0x2b => Read(Anc, Imm)
    case 0x2c => Read(Bit, Abs) case 0x2d => Read(And, Abs) case 0x2e => Modify(Rol, Abs)
    case 0x2f => Modify(Rla, Abs) case 0x30 => Branch(N, true) case 0x31 => Read(And, IndY)
    case 0x33 => Modify(Rla, IndY) case 0x34 => Read(Noop, ZpX) case 0x35 => Read(And, ZpX)
    case 0x36 => Modify(Rol, ZpX) case 0x37 => Modify(Rla, ZpX) case 0x38 => Implied(Sec) case 0x39 => Read(And, AbsY)
    case 0x3a => Implied(Nop) case 0x3b => Modify(Rla, AbsY) case 0x3c => Read(Noop, AbsX)
    case 0x3d => Read(And, AbsX) case 0x3e => Modify(Rol, AbsX) case 0x3f => Modify(Rla, AbsX)
    case _ => Other
  }

  function DecodeRow2(op: byte): Instr {
    match op
    case 0x40 => Implied(ReturnInt) case 0x41 => Read(Eor, IndX) case 0x43 => Modify(Sre, IndX)
    case 0x44 => Read(Noop, Zp) case 0x45 => Read(Eor, Zp) case 0x46 => Modify(Lsr, Zp) case 0x47 => Modify(Sre, Zp)
    case 0x48 => Implied(PushA) case 0x49 => Read(Eor, Imm) case 0x4a => Implied(LsrA) case 0x4b => Read(Asr, Imm)
    case 0x4c => Implied(Jmp) case 0x4d => Read(Eor, Abs) case 0x4e => Modify(Lsr, Abs) case 0x4f => Modify(Sre, Abs)
    case 0x50 => Branch(V, false) case 0x51 => Read(Eor, IndY) case 0x53 => Modify(Sre, IndY)
    case 0x54 => Read(Noop, ZpX) case 0x55 => Read(Eor, ZpX) case 0x56 => Modify(Lsr, ZpX)
    case 0x57 => Modify(Sre, ZpX) case 0x58 => Implied(Cli) case 0x59 => Read(Eor, AbsY) case 0x5a => Implied(Nop)
    case 0x5b => Modify(Sre, AbsY) case 0x5c => Read(Noop, AbsX) case 0x5d => Read(Eor, AbsX)
    case 0x5e => Modify(Lsr, AbsX) case 0x5f => Modify(Sre, AbsX)
    case _ => Other
  }

  function DecodeRow3(op: byte): Instr {
    match op
    case 0x60 => Implied(ReturnSub) case 0x61 => Read(Adc, IndX) case 0x63 => Modify(Rra, IndX)
    case 0x64 => Read(Noop, Zp) case 0x65 => Read(Adc, Zp) case 0x66 => Modify(Ror, Zp) case 0x67 => Modify(Rra, Zp)
    case 0x68 => Implied(PullA) case 0x69 => Read(Adc, Imm) case 0x6a => Implied(RorA) case 0x6b => Read(Arr, Imm)
    case 0x6c => Implied(JmpInd) case 0x6d => Read(Adc, Abs) case 0x6e => Modify(Ror, Abs)
    case 0x6f => Modify(Rra, Abs) case 0x70 => Branch(V, true) case 0x71 => Read(Adc, IndY)
    case 0x73 => Modify(Rra, IndY) case 0x74 => Read(Noop, ZpX) case 0x75 => Read(Adc, ZpX)
    case 0x76 => Modify(Ror, ZpX) case 0x77 => Modify(Rra, ZpX) case 0x78 => Implied(Sei) case 0x79 => Read(Adc, AbsY)
    case 0x7a => Implied(Nop) case 0x7b => Modify(Rra, AbsY) case 0x7c => Read(Noop, AbsX)
    case 0x7d => Read(Adc, AbsX) case 0x7e => Modify(Ror, AbsX) case 0x7f => Modify(Rra, AbsX)
    case _ => Other
  }

  function DecodeRow4(op: byte): Instr {
    match op
    case 0x80 => Read(Noop, Imm) case 0x81 => Write(A, IndX) case 0x82 => Read(Noop, Imm)
    case 0x83 => Write(AandX, IndX) case 0x84 => Write(Y, Zp) case 0x85 => Write(A, Zp) case 0x86 => Write(X, Zp)
    case 0x87 => Write(AandX, Zp) case 0x88 => Implied(Dey) case 0x89 => Read(Noop, Imm) case 0x8a => Implied(Txa)
    case 0x8b => Read(Ane, Imm) case 0x8c => Write(Y, Abs) case 0x8d => Write(A, Abs) case 0x8e => Write(X, Abs)
    case 0x8f => Write(AandX, Abs) case 0x90 => Branch(C, false) case 0x91 => Write(A, IndY)
    case 0x93 => High(AandX, IndY) case 0x94 => Write(Y, ZpX) case 0x95 => Write(A, ZpX) case 0x96 => Write(X, ZpY)
    case 0x97 => Write(AandX, ZpY) case 0x98 => Implied(Tya) case 0x99 => Write(A, AbsY) case 0x9a => Implied(Txs)
    case 0x9b => HighToSp case 0x9c => High(Y, AbsX) case 0x9d => Write(A, AbsX) case 0x9e => High(X, AbsY)
    case 0x9f => High(AandX, AbsY)
    case _ => Other
  }

  function DecodeRow5(op: byte): Instr {
    match op
    case 0xa0 => Read(Ldy, Imm) case 0xa1 => Read(Lda, IndX) case 0xa2 => Read(Ldx, Imm) case 0xa3 => Read(Lax, IndX)
    case 0xa4 => Read(Ldy, Zp) case 0xa5 => Read(Lda, Zp) case 0xa6 => Read(Ldx, Zp) case 0xa7 => Read(Lax, Zp)
    case 0xa8 => Implied(Tay) case 0xa9 => Read(Lda, Imm) case 0xaa => Implied(Tax) case 0xab => Read(Lxa, Imm)
    case 0xac => Read(Ldy, Abs) case 0xad => Read(Lda, Abs) case 0xae => Read(Ldx, Abs) case 0xaf => Read(Lax, Abs)
    case 0xb0 => Branch(C, true) case 0xb1 => Read(Lda, IndY) case 0xb3 => Read(Lax, IndY) case 0xb4 => Read(Ldy, ZpX)
    case 0xb5 => Read(Lda, ZpX) case 0xb6 => Read(Ldx, ZpY) case 0xb7 => Read(Lax, ZpY) case 0xb8 => Implied(Clv)
    case 0xb9 => Read(Lda, AbsY) case 0xba => Implied(Tsx) case 0xbb => Read(Las, AbsY) case 0xbc => Read(Ldy, AbsX)
    case 0xbd => Read(Lda, AbsX) case 0xbe => Read(Ldx, AbsY) case 0xbf => Read(Lax, AbsY)
    case _ => Other
  }

  function DecodeRow6(op: byte): Instr {
    match op
    case 0xc0 => Read(Cpy, Imm) case 0xc1 => Read(Cmp, IndX) case 0xc2 => Read(Noop, Imm)
    case 0xc3 => Modify(Dcp, IndX) case 0xc4 => Read(Cpy, Zp) case 0xc5 => Read(Cmp, Zp) case 0xc6 => Modify(Dec, Zp)
    case 0xc7 => Modify(Dcp, Zp) case 0xc8 => Implied(Iny) case 0xc9 => Read(Cmp, Imm) case 0xca => Implied(Dex)
    case 0xcb => Read(Sbx, Imm) case 0xcc => Read(Cpy, Abs) case 0xcd => Read(Cmp, Abs) case 0xce => Modify(Dec, Abs)
    case 0xcf => Modify(Dcp, Abs) case 0xd0 => Branch(Z, false) case 0xd1 => Read(Cmp, IndY)
    case 0xd3 => Modify(Dcp, IndY) case 0xd4 => Read(Noop, ZpX) case 0xd5 => Read(Cmp, ZpX)
    case 0xd6 => Modify(Dec, ZpX) case 0xd7 => Modify(Dcp, ZpX) case 0xd8 => Implied(Cld) case 0xd9 => Read(Cmp, AbsY)
    case 0xda => Implied(Nop) case 0xdb => Modify(Dcp, AbsY) case 0xdc => Read(Noop, AbsX)
    case 0xdd => Read(Cmp, AbsX) case 0xde => Modify(Dec, AbsX) case 0xdf => Modify(Dcp, AbsX)
    case _ => Other
  }

  function DecodeRow7(op: byte): Instr {
    match op
    case 0xe0 => Read(Cpx, Imm) case 0xe1 => Read(Sbc, IndX) case 0xe2 => Read(Noop, Imm)
    case 0xe3 => Modify(Isb, IndX) case 0xe4 => Read(Cpx, Zp) case 0xe5 => Read(Sbc, Zp) case 0xe6 => Modify(Inc, Zp)
    case 0xe7 => Modify(Isb, Zp) case 0xe8 => Implied(Inx) case 0xe9 => Read(Sbc, Imm) case 0xea => Implied(Nop)
    case 0xeb => Read(Sbc, Imm) case 0xec => Read(Cpx, Abs) case 0xed => Read(Sbc, Abs) case 0xee => Modify(Inc, Abs)
    case 0xef => Modify(Isb, Abs) case 0xf0 => Branch(Z, true) case 0xf1 => Read(Sbc, IndY)
    case 0xf3 => Modify(Isb, IndY) case 0xf4 => Read(Noop, ZpX) case 0xf5 => Read(Sbc, ZpX)
    case 0xf6 => Modify(Inc, ZpX) case 0xf7 => Modify(Isb, ZpX) case 0xf8 => Implied(Sed) case 0xf9 => Read(Sbc, AbsY)
    case 0xfa => Implied(Nop) case 0xfb => Modify(Isb, AbsY) case 0xfc => Read(Noop, AbsX)
    case 0xfd => Read(Sbc, AbsX) case 0xfe => Modify(Inc, AbsX) case 0xff => Modify(Isb, AbsX)
    case _ => Other
  }

  // ---------------------------------------------------------------- addresses

  /** `LOAD_ZERO_X`, `LOAD_ABS_X`, `LOAD_IND_X`, `LOAD_IND_Y` and the like */
  function ReadAddress(s: Cpu, mode: Mode): word {
    var p1, p2 := P1(s), P2(s);
    match mode
    case Imm => Low16(s.pc + 1)
    case Zp => p1
    case ZpX => Low8(p1 + s.x)
    case ZpY => Low8(p1 + s.y)
    case Abs => p2
    case AbsX => Low16(p2 + s.x)
    case AbsY => Low16(p2 + s.y)
    case IndX => LoadZero(s, Low8(p1 + s.x)) + 0x100 * LoadZero(s, Low8(p1 + s.x + 1))
    case IndY => Low16(LoadZero(s, p1) + 0x100 * LoadZero(s, p1 + 1) + s.y)
  }

  /** What the switch passes to the read-modify-write macros and to the stores. */
  function WriteAddress(s: Cpu, mode: Mode): word {
    var p1, p2 := P1(s), P2(s);
    match mode
    case Imm => Low16(s.pc + 1)
    case Zp => p1
    case ZpX => Low8(p1 + s.x)
    case ZpY => Low8(p1 + s.y)
    case Abs => p2
    case AbsX => Low16(p2 + s.x)
    case AbsY => Low16(p2 + s.y)
    case IndX => LoadZeroAddr(s, p1 + s.x)
    case IndY => Low16(LoadZeroAddr(s, p1) + s.y)
  }

  // ---------------------------------------------------------------- reading

  function ExecRead(s: Cpu, op: ReadOp, v: byte): Cpu {
    match op
    case Adc => AddTo(s, v)
    case And => var tmp := BitAnd(s.a, v); SetNZ(s.(a := tmp), tmp)
    case Bit => TestBits(s, v)
    case Cmp => Compare(s, s.a, v)
    case Cpx => Compare(s, s.x, v)
    case Cpy => Compare(s, s.y, v)
    case Eor => var tmp := BitXor(s.a, v); SetNZ(s.(a := tmp), tmp)
    case Lda => SetNZ(s.(a := v), v)
    case Ldx => SetNZ(s.(x := v), v)
    case Ldy => SetNZ(s.(y := v), v)
    case Lax => SetNZ(s.(x := v).(a := v), v)
    case Las => var s1 := s.(sp := BitAnd(s.sp, v)); SetNZ(s1.(x := s1.sp).(a := s1.sp), s1.sp)
    case Ora => var tmp := BitOr(s.a, v); SetNZ(s.(a := tmp), tmp)
    case Sbc => SubtractFrom(s, v)
    case Noop => s
    case Anc => var tmp := BitAnd(s.a, v); var s1 := SetNZ(s.(a := tmp), tmp); SetC(s1, Sign(s1))
    case Ane => var tmp := BitAnd(BitAnd(BitOr(s.a, 0xef), s.x), v); SetNZ(s.(a := tmp), tmp)
    case Arr => AndRotate(s, v)
    case Asr => var tmp := BitAnd(s.a, v); SetNZ(SetC(s, tmp % 2 == 1).(a := tmp / 2), tmp / 2)
    case Lxa => var tmp := BitAnd(BitOr(s.a, 0xee), v); SetNZ(s.(x := tmp).(a := tmp), tmp)
    case Sbx =>
      var tmp := Unsigned(BitAnd(s.a, s.x) - v);
      var s1 := SetC(s, tmp < 0x100).(x := tmp % 0x100);
      SetNZ(s1, s1.x)
  }

  // ---------------------------------------------------------------- read, modify, write

  /** The registers after the modification, and the value to be written, not yet truncated. */
  datatype Modified = Modified(s: Cpu, v: int)

  function ExecModify(s: Cpu, op: ModifyOp, v: byte): Modified {
    match op
    case Asl => var tmp := Low8(v * 2); Modified(SetNZ(SetC(s, Bit7(v)), tmp), tmp)
    case Dec => var tmp := Low8(v - 1); Modified(SetNZ(s, tmp), tmp)
    case Dcp => var tmp := Low8(v - 1); Modified(SetNZ(SetC(s, s.a >= tmp), s.a - tmp), tmp)
    case Inc => var tmp := Low8(v + 1); Modified(SetNZ(s, tmp), tmp)
    case Isb => var tmp := Low8(v + 1); Modified(SubtractFrom(s, tmp), tmp)
    case Lsr => Modified(SetNZ(SetC(s, v % 2 == 1), v / 2), v / 2)
    case Rla =>
      var tmp := v * 2 + Carry(s);
      var tmp2 := BitAnd(s.a, Low8(tmp));
      Modified(SetNZ(SetC(s, tmp >= 0x100).(a := tmp2), tmp2), tmp)
    case Rol => var tmp := v * 2 + Carry(s); Modified(SetNZ(SetC(s, tmp >= 0x100), Low8(tmp)), tmp)
    case Ror => var src := v + 0x100 * Carry(s); Modified(SetNZ(SetC(s, src % 2 == 1), src / 2), src / 2)
    case Rra => var tmp := v / 2 + 0x80 * Carry(s); Modified(AddTo(SetC(s, v % 2 == 1), tmp), tmp)
    case Slo =>
      var tmp := Low8(v * 2);
      var tmp2 := BitOr(s.a, tmp);
      Modified(SetNZ(SetC(s, Bit7(v)).(a := tmp2), tmp2), tmp)
    case Sre => var tmp2 := BitXor(s.a, v / 2); Modified(SetNZ(SetC(s, v % 2 == 1).(a := tmp2), tmp2), v / 2)
  }

  /** The old value is written back before the new one. */
  function ModifyAt(s: Cpu, op: ModifyOp, mode: Mode): Cpu {
    var addr := WriteAddress(s, mode);
    var was := Load(s, addr);
    var m := ExecModify(Store(s, addr, was), op, was);
    Store(IncPc(m.s, Length(mode)), addr, m.v)
  }

  // ---------------------------------------------------------------- stores

  function SourceOf(s: Cpu, r: Source): byte {
    match r
    case A => s.a
    case X => s.x
    case Y => s.y
    case AandX => BitAnd(s.a, s.x)
  }

  function WriteAt(s: Cpu, r: Source, mode: Mode): Cpu {
    Store(IncPc(s, Length(mode)), WriteAddress(s, mode), SourceOf(s, r))
  }

  /** `STORE_ABS_SH_X`, `STORE_ABS_SH_Y`, and the end of `SHA_IND_Y`: the value is combined with the high
      byte of the address plus one, and takes its place when the index carries. */
  function StoreHigh(s: Cpu, reg: byte, base: word, index: byte): Cpu {
    var value := BitAnd(reg, Low8(base / 0x100 + 1));
    Store(s, if base % 0x100 + index > 0xff then Low8(base + index) + 0x100 * value else base + index, value)
  }

  function WriteHigh(s: Cpu, r: Source, mode: Mode): Cpu {
    if mode == IndY then StoreHigh(IncPc(s, 2), SourceOf(s, r), LoadZeroAddr(s, P1(s)), s.y)
    else StoreHigh(IncPc(s, 3), SourceOf(s, r), P2(s), if mode == AbsX then s.x else s.y)
  }

  // ---------------------------------------------------------------- the rest

  function ExecImplied(s: Cpu, op: ImpliedOp): Cpu {
    match op
    case AslA => var tmp := Low8(s.a * 2); IncPc(SetNZ(SetC(s, Bit7(s.a)).(a := tmp), tmp), 1)
    case LsrA => var tmp := s.a / 2; IncPc(SetNZ(SetC(s, s.a % 2 == 1).(a := tmp), tmp), 1)
    case RolA =>
      var tmp := s.a * 2 + Carry(s);
      IncPc(SetC(SetNZ(s.(a := Low8(tmp)), tmp), tmp >= 0x100), 1)
    case RorA => var tmp := s.a / 2 + 0x80 * Carry(s); IncPc(SetNZ(SetC(s, s.a % 2 == 1).(a := tmp), tmp), 1)
    case Dex => var r := Low8(s.x - 1); IncPc(SetNZ(s.(x := r), r), 1)
    case Dey => var r := Low8(s.y - 1); IncPc(SetNZ(s.(y := r), r), 1)
    case Inx => var r := Low8(s.x + 1); IncPc(SetNZ(s.(x := r), r), 1)
    case Iny => var r := Low8(s.y + 1); IncPc(SetNZ(s.(y := r), r), 1)
    case Tax => var s1 := s.(x := s.a); IncPc(SetNZ(s1, s1.x), 1)
    case Tay => var s1 := s.(y := s.a); IncPc(SetNZ(s1, s1.y), 1)
    case Tsx => IncPc(SetNZ(s.(x := s.sp), s.sp), 1)
    case Txa => IncPc(SetNZ(s.(a := s.x), s.x), 1)
    case Txs => IncPc(s.(sp := s.x), 1)
    case Tya => IncPc(SetNZ(s.(a := s.y), s.y), 1)
    case Nop => IncPc(s, 1)
    case PushA => Pha(s)
    case PushP => Php(s)
    case PullA => Pla(s)
    case PullP => Plp(s)
    case ReturnInt => Rti(s)
    case ReturnSub => Rts(s)
    case CallSub => Jsr(s)
    case Jmp => s.(pc := P2(s))
    case JmpInd => JumpIndirect(s)
    case _ => IncPc(SetFlag(s, op), 1)
  }

  function Exec(s: Cpu, i: Instr): Cpu {
    match i
    case Read(op, mode) => IncPc(ExecRead(s, op, Load(s, ReadAddress(s, mode))), Length(mode))
    case Modify(op, mode) => ModifyAt(s, op, mode)
    case Write(r, mode) => WriteAt(s, r, mode)
    case High(r, mode) => WriteHigh(s, r, mode)
    case HighToSp => WriteHigh(s, AandX, AbsY).(sp := BitAnd(s.a, s.x))
    case Branch(f, on) => BranchTo(s, FlagSet(s, f) == on)
    case Implied(op) => ExecImplied(s, op)
    case Other => s
  }

  function Step(s: Cpu): Cpu {
    Exec(s, Decode(Load(s, s.pc)))
  }
}
