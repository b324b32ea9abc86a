/**
 The opcodes of the 6510 by their fields: bits 7 to 5 choose the operation, bits 4 to 2 the addressing mode, and bits 1
 and 0 the group. The documented instructions are laid out that way, and the undocumented ones are what the gaps decode
 to; both cores' switches follow it.
 */
module Encoding6510 {
  import opened Basics
  import C = Core6510
  import M = Modes65816
  import opened OpcodeLaws
  import opened Opcodes6510

  type field = n: nat | n < 8

  // ---------------------------------------------------------------- the fields

  function AccumulatorMode(m: field): Mode {
    match m
    case 0 => IndX case 1 => Zp case 2 => Imm case 3 => Abs case 4 => IndY case 5 => ZpX case 6 => AbsY case _ => AbsX
  }

  /** What is indexed with X elsewhere is indexed with Y when X is stored or loaded. */
  function WithY(mode: Mode): Mode {
    match mode
    case ZpX => ZpY case AbsX => AbsY case _ => mode
  }

  function AccumulatorOp(operation: field): ReadOp {
    match operation
    case 0 => Ora case 1 => And case 2 => Eor case 3 => Adc case 5 => Lda case 6 => Cmp case 7 => Sbc case _ => Noop
  }

  /** The group of the accumulator: eight operations in eight modes, of which 4 is the store. There is no store to an
      operand. */
  function AccumulatorGroup(operation: field, m: field): Instr {
    if operation == 4 && m != 2 then Write(A, AccumulatorMode(m))
    else Read(AccumulatorOp(operation), AccumulatorMode(m))
  }

  function ShiftOp(operation: field): ModifyOp {
    match operation
    case 0 => Asl case 1 => Rol case 2 => Lsr case 3 => Ror case 6 => Dec case _ => Inc
  }

  function ShiftAccumulator(operation: field): ImpliedOp {
    match operation
    case 0 => AslA case 1 => RolA case 2 => LsrA case 3 => RorA case 4 => Txa case 5 => Tax case 6 => Dex case _ => Nop
  }

  /** The group of the shifts, of X, and of the counting in memory; 4 is the store of X and 5 the load. */
  function ShiftGroup(operation: field, m: field): Instr {
    if m == 2 then Implied(ShiftAccumulator(operation))
    else if m == 6 then Implied(if operation == 4 then Txs else if operation == 5 then Tsx else Nop)
    else if m == 4 || (m == 0 && operation < 4) then Other
    else if m == 0 then Read(if operation == 5 then Ldx else Noop, Imm)
    else if operation == 4 then (if m == 7 then High(X, AbsY) else Write(X, WithY(AccumulatorMode(m))))
    else if operation == 5 then Read(Ldx, WithY(AccumulatorMode(m)))
    else Modify(ShiftOp(operation), AccumulatorMode(m))
  }

  function StackOrCount(operation: field): ImpliedOp {
    match operation
    case 0 => PushP case 1 => PullP case 2 => PushA case 3 => PullA
    case 4 => Dey case 5 => Tay case 6 => Iny case _ => Inx
  }

  function FlagOp(operation: field): ImpliedOp {
    match operation
    case 0 => Clc case 1 => Sec case 2 => Cli case 3 => Sei case 4 => Tya case 5 => Clv case 6 => Cld case _ => Sed
  }

  /** Two branches for each flag, on clear and on set. */
  function BranchOp(operation: field): Instr {
    match operation
    case 0 => Branch(Flag.N, false) case 1 => Branch(Flag.N, true) case 2 => Branch(V, false) case 3 => Branch(V, true)
    case 4 => Branch(C, false) case 5 => Branch(C, true) case 6 => Branch(Z, false) case _ => Branch(Z, true)
  }

  function JumpOp(operation: field): Instr {
    match operation
    case 1 => Implied(CallSub) case 2 => Implied(ReturnInt) case 3 => Implied(ReturnSub) case _ => Other
  }

  /** The rest of the control group by mode */
  function ControlMode(m: field): Mode {
    match m
    case 1 => Zp case 3 => Abs case 5 => ZpX case 7 => AbsX case _ => Imm
  }

  function ControlRead(operation: field, m: field): Instr {
    if operation == 4 then
      if m == 0 then Read(Noop, Imm) else if m == 7 then High(Y, AbsX) else Write(Y, ControlMode(m))
    else if operation == 5 then Read(Ldy, ControlMode(m))
    else if operation == 1 && m < 4 then Read(Bit, ControlMode(m))
    else if operation == 6 && m < 4 then Read(Cpy, ControlMode(m))
    else if operation == 7 && m < 4 then Read(Cpx, ControlMode(m))
    else Read(Noop, ControlMode(m))
  }

  /** The group of the branches, flags, jumps and of Y; 4 is the store of Y and 5 the load. */
  function ControlGroup(operation: field, m: field): Instr {
    if m == 4 then BranchOp(operation)
    else if m == 2 then Implied(StackOrCount(operation))
    else if m == 6 then Implied(FlagOp(operation))
    else if m == 0 && operation < 4 then JumpOp(operation)
    else if m == 3 && operation == 2 then Implied(Jmp)
    else if m == 3 && operation == 3 then Implied(JmpInd)
    else ControlRead(operation, m)
  }

  function ImmediateOp(operation: field): ReadOp {
    match operation
    case 0 => Anc case 1 => Anc case 2 => Asr case 3 => Arr case 4 => Ane case 5 => Lxa case 6 => Sbx case _ => Sbc
  }

  function CombinedOp(operation: field): ModifyOp {
    match operation
    case 0 => Slo case 1 => Rla case 2 => Sre case 3 => Rra case 6 => Dcp case _ => Isb
  }

  /** The stores of A and X together */
  function CombinedStore(m: field): Instr {
    match m
    case 4 => High(AandX, IndY) case 6 => HighToSp case 7 => High(AandX, AbsY)
    case _ => Write(AandX, WithY(AccumulatorMode(m)))
  }

  /** The undocumented group: in every mode the operations of the two groups before it together, and immediate ones of
      their own. */
  function CombinedGroup(operation: field, m: field): Instr {
    if m == 2 then Read(ImmediateOp(operation), Imm)
    else if operation == 4 then CombinedStore(m)
    else if operation == 5 then Read(if m == 6 then Las else Lax, WithY(AccumulatorMode(m)))
    else Modify(CombinedOp(operation), AccumulatorMode(m))
  }

  function ByFields(operation: field, m: field, group: nat): Instr {
    match group
    case 0 => ControlGroup(operation, m)
    case 1 => AccumulatorGroup(operation, m)
    case 2 => ShiftGroup(operation, m)
    case _ => CombinedGroup(operation, m)
  }

  // ---------------------------------------------------------------- the switches

  lemma Row0(m: field, group: nat)
    requires group < 4
    ensures C.Decode(4 * m + group) == ByFields(0, m, group)
  {
  }

  lemma Row1(m: field, group: nat)
    requires group < 4
    ensures C.Decode(0x20 + 4 * m + group) == ByFields(1, m, group)
  {
  }

  lemma Row2(m: field, group: nat)
    requires group < 4
    ensures C.Decode(0x40 + 4 * m + group) == ByFields(2, m, group)
  {
  }

  lemma Row3(m: field, group: nat)
    requires group < 4
    ensures C.Decode(0x60 + 4 * m + group) == ByFields(3, m, group)
  {
  }

  lemma Row4(m: field, group: nat)
    requires group < 4
    ensures C.Decode(0x80 + 4 * m + group) == ByFields(4, m, group)
  {
  }

  lemma Row5(m: field, group: nat)
    requires group < 4
    ensures C.Decode(0xa0 + 4 * m + group) == ByFields(5, m, group)
  {
  }

  lemma Row6(m: field, group: nat)
    requires group < 4
    ensures C.Decode(0xc0 + 4 * m + group) == ByFields(6, m, group)
  {
  }

  lemma Row7(m: field, group: nat)
    requires group < 4
    ensures C.Decode(0xe0 + 4 * m + group) == ByFields(7, m, group)
  {
  }

  // The switch of 6510core.c, a quarter of the opcodes at a time, follows the fields; so does that of 6510dtvcore.c,
  // since it names the same instructions (`DecodersAgree`).

  /** Operations 0 and 1: ORA, AND, ASL and ROL with what goes by their fields. */
  lemma Quarter0(operation: field, m: field, group: nat)
    requires 0 <= operation <= 1 && group < 4
    ensures C.Decode(0x20 * operation + 4 * m + group) == ByFields(operation, m, group)
  {
    if operation == 0 {
      Row0(m, group);
    } else {
      Row1(m, group);
    }
  }

  /** Operations 2 and 3: EOR, ADC, LSR and ROR. */
  lemma Quarter1(operation: field, m: field, group: nat)
    requires 2 <= operation <= 3 && group < 4
    ensures C.Decode(0x20 * operation + 4 * m + group) == ByFields(operation, m, group)
  {
    if operation == 2 {
      Row2(m, group);
    } else {
      Row3(m, group);
    }
  }

  /** Operations 4 and 5: the stores and the loads of A, X and Y. */
  lemma Quarter2(operation: field, m: field, group: nat)
    requires 4 <= operation <= 5 && group < 4
    ensures C.Decode(0x20 * operation + 4 * m + group) == ByFields(operation, m, group)
  {
    if operation == 4 {
      Row4(m, group);
    } else {
      Row5(m, group);
    }
  }

  /** Operations 6 and 7: CMP, SBC, DEC and INC. */
  lemma Quarter3(operation: field, m: field, group: nat)
    requires 6 <= operation <= 7 && group < 4
    ensures C.Decode(0x20 * operation + 4 * m + group) == ByFields(operation, m, group)
  {
    if operation == 6 {
      Row6(m, group);
    } else {
      Row7(m, group);
    }
  }

  /** Every opcode. */
  lemma DecodesByFields(operation: field, m: field, group: nat)
    requires group < 4
    ensures C.Decode(0x20 * operation + 4 * m + group) == ByFields(operation, m, group)
  {
    if operation <= 1 {
      Quarter0(operation, m, group);
    } else if operation <= 3 {
      Quarter1(operation, m, group);
    } else if operation <= 5 {
      Quarter2(operation, m, group);
    } else {
      Quarter3(operation, m, group);
    }
  }

  /** An undocumented opcode with both group bits set is the documented read-modify-write instruction before it together
      with the accumulator's instruction before that, as `Combined` says of them. */
  lemma CombinedByFields(operation: field, m: field)
    requires m != 2 && operation != 4 && operation != 5
    ensures ByFields(operation, m, 3) == Modify(CombinedOp(operation), AccumulatorMode(m))
    ensures PartsOf(CombinedOp(operation)) == Some((ShiftOp(operation), AccumulatorOp(operation)))
    ensures ByFields(operation, m, 1) == Read(AccumulatorOp(operation), AccumulatorMode(m))
    ensures m % 2 == 1 ==> ByFields(operation, m, 2) == Modify(ShiftOp(operation), AccumulatorMode(m))
  {
  }

  // ---------------------------------------------------------------- the 65816

  /** What the 65816 makes of a documented instruction of the 6510 that has to do with the stack or the index
      registers. */
  function OnWdc(i: Instr): Option<M.Instr> {
    match i
    case Read(Ldx, _) => Some(M.Index(M.LoadX))
    case Read(Ldy, _) => Some(M.Index(M.LoadY))
    case Implied(j) => ImpliedOnWdc(j)
    case _ => None
  }

  function ImpliedOnWdc(i: ImpliedOp): Option<M.Instr> {
    match i
    case PushA => Some(M.Push(M.PPha))
    case PushP => Some(M.Push(M.PPhp))
    case PullA => Some(M.Pull(M.LPla))
    case PullP => Some(M.Pull(M.LPlp))
    case CallSub => Some(M.Call(M.CJsr))
    case ReturnSub => Some(M.Call(M.CRts))
    case ReturnInt => Some(M.Call(M.CRti))
    case Inx => Some(M.Index(M.IncX))
    case Iny => Some(M.Index(M.IncY))
    case Dex => Some(M.Index(M.DecX))
    case Dey => Some(M.Index(M.DecY))
    case Tax => Some(M.Index(M.Tax))
    case Tay => Some(M.Index(M.Tay))
    case Tsx => Some(M.Index(M.Tsx))
    case Txs => Some(M.Mode(M.Txs))
    case _ => None
  }

  /** The 65816 has them under the same opcodes: those of the control group, */
  lemma SharedControl(operation: field, m: field)
    requires OnWdc(ControlGroup(operation, m)).Some?
    ensures M.Decode(0x20 * operation + 4 * m) == OnWdc(ControlGroup(operation, m)).value
  {
  }

  /** those of the group of the shifts, */
  lemma SharedShift(operation: field, m: field)
    requires OnWdc(ShiftGroup(operation, m)).Some?
    ensures M.Decode(0x20 * operation + 4 * m + 2) == OnWdc(ShiftGroup(operation, m)).value
  {
  }

  /** and there are none in the other two. */
  lemma SharedNowhereElse(operation: field, m: field)
    ensures OnWdc(AccumulatorGroup(operation, m)).None? && OnWdc(CombinedGroup(operation, m)).None?
  {
  }

  /** Its own instructions of this kind, which take the place of undocumented opcodes, of those that jam, and of BRK. */
  function Own(op: byte): M.Instr {
    match op
    case 0x00 => M.Call(M.CBrk) case 0x02 => M.Call(M.CCop) case 0x22 => M.Call(M.CJsl)
    case 0xfc => M.Call(M.CJsrIndX) case 0x6b => M.Call(M.CRtl)
    case 0xf4 => M.Push(M.PPea) case 0xd4 => M.Push(M.PPei) case 0x62 => M.Push(M.PPer)
    case 0x8b => M.Push(M.PPhb) case 0x0b => M.Push(M.PPhd) case 0x4b => M.Push(M.PPhk)
    case 0xda => M.Push(M.PPhx) case 0x5a => M.Push(M.PPhy)
    case 0xab => M.Pull(M.LPlb) case 0x2b => M.Pull(M.LPld) case 0xfa => M.Pull(M.LPlx) case 0x7a => M.Pull(M.LPly)
    case 0x9b => M.Index(M.Txy) case 0xbb => M.Index(M.Tyx)
    case 0x54 => M.Mode(M.Mvn) case 0x44 => M.Mode(M.Mvp) case 0xc2 => M.Mode(M.Rep) case 0xe2 => M.Mode(M.Sep)
    case 0x1b => M.Mode(M.Tcs) case 0xfb => M.Mode(M.XceOp)
    case _ => M.Plain
  }

  /** What is not shared is one of those. */
  lemma OwnOpcodes(operation: field, m: field, group: nat)
    requires group < 4 && OnWdc(ByFields(operation, m, group)).None?
    ensures M.Decode(0x20 * operation + 4 * m + group) == Own(0x20 * operation + 4 * m + group)
  {
    if operation <= 3 {
      OwnLow(operation, m, group);
    } else {
      OwnHigh(operation, m, group);
    }
  }

  lemma OwnLow(operation: field, m: field, group: nat)
    requires operation <= 3 && group < 4 && OnWdc(ByFields(operation, m, group)).None?
    ensures M.Decode(0x20 * operation + 4 * m + group) == Own(0x20 * operation + 4 * m + group)
  {
  }

  lemma OwnHigh(operation: field, m: field, group: nat)
    requires operation >= 4 && group < 4 && OnWdc(ByFields(operation, m, group)).None?
    ensures M.Decode(0x20 * operation + 4 * m + group) == Own(0x20 * operation + 4 * m + group)
  {
  }
}
