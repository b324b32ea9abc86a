/** The two 6510 cores agree: on every program, at every step, on every register, flag and byte. */
module CoreAgreement {
  import opened Basics
  import A = Core6510
  import B = CoreDtv
  import opened Mos6510
  import opened Opcodes6510

  /** Both switches name the same operation and addressing mode for every opcode. */
  lemma DecodersAgree(op: byte)
    ensures A.Decode(op) == B.Decode(op)
  {
  }

  lemma AddressesAgree(s: Cpu, mode: Mode)
    ensures A.ReadAddress(s, mode) == B.Address(s, mode)
    ensures A.WriteAddress(s, mode) == B.Address(s, mode)
  {
  }

  lemma ReadsAgree(s: Cpu, op: ReadOp, v: byte)
    ensures A.ExecRead(s, op, v) == B.ExecRead(s, op, v)
  {
  }

  lemma ModificationsAgree(s: Cpu, op: ModifyOp, v: byte)
    ensures var a, b := A.ExecModify(s, op, v), B.ExecModify(s, op, v);
            a.s == b.s && Low8(a.v) == Low8(b.v) && a.s.mem == s.mem
  {
    match op {
      case Rra => RraAgree(s, v);
      case Isb =>
      case _ =>
    }
  }

  /** RRA of the second core sets N and Z before it adds, which sets them again. */
  lemma RraAgree(s: Cpu, v: byte)
    ensures var a, b := A.ExecModify(s, Rra, v), B.ExecModify(s, Rra, v);
            a.s == b.s && a.v == b.v && a.s.mem == s.mem
  {
    var r := v + 0x100 * Carry(s);
    HalfWithCarry(v, Carry(s));
    FirstRra(s, v, r);
    SecondRra(s, v, r);
    AddSetsNZ(SetC(s, v % 2 == 1), r / 2, r / 2);
  }

  lemma FirstRra(s: Cpu, v: byte, r: nat)
    requires r == v + 0x100 * Carry(s) && r % 2 == v % 2 && r / 2 < 0x100
    ensures A.ExecModify(s, Rra, v) == A.Modified(AddTo(SetC(s, v % 2 == 1), r / 2), r / 2)
  {
  }

  lemma SecondRra(s: Cpu, v: byte, r: nat)
    requires r == v + 0x100 * Carry(s) && r % 2 == v % 2 && r / 2 < 0x100
    ensures B.ExecModify(s, Rra, v) == B.Modified(AddTo(SetNZ(SetC(s, v % 2 == 1), r / 2), r / 2), r / 2)
  {
  }

  /** Writing the old value back before or after the modification makes no difference. */
  lemma ModifyAgrees(s: Cpu, op: ModifyOp, mode: Mode)
    ensures A.ModifyAt(s, op, mode) == B.ModifyAt(s, op, mode)
  {
    AddressesAgree(s, mode);
    var addr := B.Address(s, mode);
    var was := Load(s, addr);
    ModificationsAgree(s, op, was);
    assert Store(s, addr, was) == s;
  }

  lemma WritesAgree(s: Cpu, r: Source, mode: Mode)
    ensures A.WriteAt(s, r, mode) == B.WriteAt(s, r, mode)
  {
    AddressesAgree(s, mode);
  }

  lemma HighsAgree(s: Cpu, r: Source, mode: Mode)
    ensures A.WriteHigh(s, r, mode) == B.WriteHigh(s, r, mode)
  {
    if mode == IndY {
      HighStoresAgree(s, A.SourceOf(s, r), LoadZeroAddr(s, P1(s)), s.y, 2);
    } else {
      HighStoresAgree(s, A.SourceOf(s, r), P2(s), if mode == AbsX then s.x else s.y, 3);
    }
  }

  lemma HighStoresAgree(s: Cpu, reg: byte, base: word, index: byte, len: nat)
    ensures A.StoreHigh(IncPc(s, len), reg, base, index) == IncPc(B.HighAt(s, reg, base, index), len)
  {
    LowIsRemainder(base + index);
  }

  lemma ImpliedAgree(s: Cpu, op: ImpliedOp)
    ensures A.ExecImplied(s, op) == B.ExecImplied(s, op)
  {
  }

  /** One instruction leaves both cores in the same state. */
  lemma StepsAgree(s: Cpu)
    ensures A.Step(s) == B.Step(s)
  {
    var op := Load(s, s.pc);
    DecodersAgree(op);
    match A.Decode(op) {
      case Read(r, mode) =>
        AddressesAgree(s, mode);
        ReadsAgree(s, r, Load(s, B.Address(s, mode)));
      case Modify(m, mode) => ModifyAgrees(s, m, mode);
      case Write(r, mode) => WritesAgree(s, r, mode);
      case High(r, mode) => HighsAgree(s, r, mode);
      case HighToSp => HighsAgree(s, AandX, AbsY);
      case Branch(_, _) =>
      case Implied(i) => ImpliedAgree(s, i);
      case Other =>
    }
  }

  /** A run of one of the cores that meets neither BRK nor an opcode that jams. */
  ghost predicate RunA(states: seq<Cpu>) {
    forall i :: 0 < i < |states| ==> NextA(states[i - 1], states[i])
  }

  ghost predicate RunB(states: seq<Cpu>) {
    forall i :: 0 < i < |states| ==> NextB(states[i - 1], states[i])
  }

  predicate NextA(s: Cpu, t: Cpu) {
    A.Decode(Load(s, s.pc)) != Other && t == A.Step(s)
  }

  predicate NextB(s: Cpu, t: Cpu) {
    B.Decode(Load(s, s.pc)) != Other && t == B.Step(s)
  }

  /** From the same state, any program takes both cores through the same states: the same registers, the
      same status and the same memory after every instruction. */
  lemma {:induction false} CoresAgree(left: seq<Cpu>, right: seq<Cpu>, n: nat)
    requires RunA(left) && RunB(right) && n < |left| && n < |right| && left[0] == right[0]
    ensures left[n] == right[n]
  {
    if n > 0 {
      CoresAgree(left, right, n - 1);
      assert NextA(left[n - 1], left[n]) && NextB(right[n - 1], right[n]);
      StepsAgree(left[n - 1]);
    }
  }
}
