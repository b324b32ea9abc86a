/**
 Where the 65816's calls, returns and interrupts go and what its stack instructions leave behind, as a program finds it:
 the bytes behind the opcode, the vectors and the stack are given by their addresses.
 */
module Effects65816 {
  import opened Basics
  import opened BlockMove
  import opened Interrupts65816
  import M = Modes65816
  import opened Stack65816
  import opened StatusRegister
  import opened Wdc65816

  // ---------------------------------------------------------------- places

  /** The byte `k` behind the opcode; the program counter wraps in its bank. */
  function Behind(s: Cpu, m: Memory, k: nat): byte {
    m[s.pbr * 0x1_0000 + Low16(s.pc + k)]
  }

  /** The word of the first two operand bytes */
  function OperandWord(s: Cpu): word {
    Behind(s, s.mem, 1) + 0x100 * Behind(s, s.mem, 2)
  }

  /** The word at an address and the next one */
  function WordAt(m: Memory, a: nat): word
    requires a + 1 < SPACE
  {
    m[a] as int + 0x100 * m[a + 1] as int
  }

  /** The stack pointer `k` further down, in page one in emulation mode. */
  function Down(s: Cpu, k: nat): word {
    if s.emul then 0x100 + Low8(s.sp - k) else Low16(s.sp - k)
  }

  function Up(s: Cpu, k: nat): word {
    if s.emul then 0x100 + Low8(s.sp + k) else Low16(s.sp + k)
  }

  /** The same, not confined to page one. */
  function OpenlyDown(s: Cpu, k: nat): word {
    Low16(s.sp - k)
  }

  function OpenlyUp(s: Cpu, k: nat): word {
    Low16(s.sp + k)
  }

  function PcAfter(s: Cpu, size: nat): word {
    Low16(s.pc + size)
  }

  /** The bytes `what` have been stored at `place`, and no other byte has changed. */
  ghost predicate Stacked(m: Memory, n: Memory, place: seq<word>, what: seq<byte>) {
    && |place| == |what|
    && (forall k :: 0 <= k < |place| ==> n[place[k]] == what[k])
    && (forall a: Addr :: a !in place ==> n[a] == m[a])
  }

  /** N and Z are those of a byte or, in the wide case, of a word. */
  predicate Flagged(e: Cpu, v: word, bits8: bool) {
    (Sign(e) <==> v >= if bits8 then 0x80 else 0x8000) && (Zero(e) <==> v == 0)
  }

  lemma FlagsOfResult(s: Cpu, v: word, bits8: bool)
    requires bits8 ==> v < 0x100
    ensures var e := SetNZ(s, v, bits8); Flagged(e, v, bits8) && e == s.(fn := e.fn, fz := e.fz)
  {
  }

  lemma ByteSteps(v: int)
    ensures Low8(0x100 + Low8(v) - 1) == Low8(v - 1) && Low8(0x100 + Low8(v) + 1) == Low8(v + 1)
  {
    var q, r := v / 0x100, v % 0x100;
    LowIsRemainder(v);
    LowIsRemainder(v - 1);
    LowIsRemainder(v + 1);
    assert v - 1 == 0x100 * q + (r - 1) && v + 1 == 0x100 * q + (r + 1);
  }

  lemma DownSteps(s: Cpu, k: nat)
    requires 0 < k <= 4
    ensures Below(s.emul, Down(s, k)) == Down(s, k + 1) && Above(s.emul, Up(s, k)) == Up(s, k + 1)
  {
    ByteSteps(s.sp - k);
    ByteSteps(s.sp + k);
  }

  lemma DownIsBelow(s: Cpu)
    ensures Below(s.emul, s.sp) == Down(s, 1) && Above(s.emul, s.sp) == Up(s, 1)
    ensures Below(s.emul, Below(s.emul, s.sp)) == Down(s, 2) && Above(s.emul, Above(s.emul, s.sp)) == Up(s, 2)
    ensures Below(s.emul, Below(s.emul, Below(s.emul, s.sp))) == Down(s, 3)
    ensures Above(s.emul, Above(s.emul, Above(s.emul, s.sp))) == Up(s, 3)
  {
    DownSteps(s, 1);
    DownSteps(s, 2);
  }

  lemma FetchIsBehind(s: Cpu, k: nat)
    requires k <= 3
    ensures Fetch(s, Low16(s.pc + k)) == Behind(s, s.mem, k) && IncPc(s, k).pc == PcAfter(s, k)
  {
  }

  // ---------------------------------------------------------------- pushes and pulls

  lemma PushStores(s: Cpu, v: byte)
    ensures var e := Push(s, v);
            e == s.(sp := Down(s, 1), mem := e.mem) && Stacked(s.mem, e.mem, [s.sp], [v])
  {
    DownIsBelow(s);
  }

  lemma PushWordStores(s: Cpu, v: word)
    ensures var e := PushWord(s, v);
            && e == s.(sp := Down(s, 2), mem := e.mem)
            && Stacked(s.mem, e.mem, [s.sp, Down(s, 1)], [v / 0x100, v % 0x100])
  {
    DownIsBelow(s);
    LowIsRemainder(v);
  }

  /** The word with these bytes, or one that agrees with it modulo 2 to the 16. */
  lemma PushWordOpenStores(s: Cpu, v: nat, high: byte, low: byte)
    requires v < 0x2_0000 && Low16(v) == low + 0x100 * high
    ensures var e := PushWordOpen(s, v);
            && e == s.(sp := Down(s, 2), mem := e.mem)
            && Stacked(s.mem, e.mem, [s.sp, OpenlyDown(s, 1)], [high, low])
  {
    LowBytes(v);
    OpenlyDownSteps(s);
  }

  lemma OpenlyDownSteps(s: Cpu)
    ensures Low16(s.sp - 1) == OpenlyDown(s, 1) && Low16(OpenlyDown(s, 1) - 1) == OpenlyDown(s, 2)
    ensures Low16(OpenlyDown(s, 2) - 1) == OpenlyDown(s, 3)
    ensures Below(s.emul, OpenlyDown(s, 1)) == Down(s, 2) && Below(s.emul, OpenlyDown(s, 2)) == Down(s, 3)
  {
  }

  lemma UpIsAbove(s: Cpu)
    ensures SpUp(s) == Up(s, 1) && SpUp(PullSp(s)) == Up(s, 2) && SpUp(PullSp(PullSp(s))) == Up(s, 3)
    ensures Pulled(s) == s.mem[Up(s, 1)] && Pulled(PullSp(s)) == s.mem[Up(s, 2)]
    ensures Pulled(PullSp(PullSp(s))) == s.mem[Up(s, 3)]
  {
    DownIsBelow(s);
  }

  /** The two bytes pulled, the lower one first */
  function StackWord(s: Cpu): word {
    s.mem[Up(s, 1)] as int + 0x100 * s.mem[Up(s, 2)] as int
  }

  lemma PullWordTakes(s: Cpu)
    ensures PulledWord(s) == StackWord(s) && PullWordSp(s) == s.(sp := Up(s, 2))
  {
    UpIsAbove(s);
  }

  // ---------------------------------------------------------------- calls and returns

  /** JSR goes to the word behind the opcode and leaves the address of its last byte on the stack, the high byte
      above the low one. */
  lemma JsrGoes(s: Cpu)
    ensures var e := M.ExecCall(s, M.CJsr);
            && e == s.(pc := OperandWord(s), sp := Down(s, 2), mem := e.mem)
            && Stacked(s.mem, e.mem, [s.sp, Down(s, 1)], [PcAfter(s, 2) / 0x100, PcAfter(s, 2) % 0x100])
  {
    JsrIs(s);
    PushWordStores(IncPc(s, 2), PcAfter(s, 2));
  }

  lemma JsrIs(s: Cpu)
    ensures Jsr(s) == PushWord(IncPc(s, 2), PcAfter(s, 2)).(pc := OperandWord(s))
  {
    FetchIsBehind(s, 1);
    FetchIsBehind(s, 2);
  }

  /** A byte of the program bank */
  function InBank(s: Cpu, m: Memory, a: word): byte {
    m[s.pbr * 0x1_0000 + a]
  }

  /** JSR (a,X) pushes like JSR, but for the first byte without confining SP. */
  lemma JsrIndXStores(s: Cpu)
    ensures var e := M.ExecCall(s, M.CJsrIndX);
            && e == s.(pc := e.pc, sp := Down(s, 2), mem := e.mem)
            && Stacked(s.mem, e.mem, [s.sp, OpenlyDown(s, 1)], [PcAfter(s, 2) / 0x100, PcAfter(s, 2) % 0x100])
  {
    var s1 := PushWordOpen(IncPc(s, 2), Low16(s.pc + 2));
    PushWordOpenStores(IncPc(s, 2), PcAfter(s, 2), PcAfter(s, 2) / 0x100, PcAfter(s, 2) % 0x100);
    assert JsrIndX(s) == s1.(pc := JsrIndX(s).pc);
  }

  /** It goes to the word in the table that its operand and X point into, in the program bank; the high byte of the
      operand and the table are read after the pushes, which matters only if these hit them. */
  lemma JsrIndXGoes(s: Cpu)
    ensures var e := M.ExecCall(s, M.CJsrIndX);
            var entry := Low16(Behind(s, s.mem, 1) as int + 0x100 * Behind(s, e.mem, 2) as int + s.x);
            e.pc == InBank(s, e.mem, entry) as int + 0x100 * InBank(s, e.mem, Low16(entry + 1)) as int
  {
    var s1 := PushWordOpen(IncPc(s, 2), Low16(s.pc + 2));
    JsrIndXIs(s, s1);
    IndexedTarget(s, s1);
  }

  lemma JsrIndXIs(s: Cpu, s1: Cpu)
    requires s1 == PushWordOpen(IncPc(s, 2), Low16(s.pc + 2))
    ensures JsrIndX(s) == s1.(pc := Indexed(s, s1)) && s1.pbr == s.pbr && s1.pc == Low16(s.pc + 2)
  {
  }

  /** The word in the table, with the memory of a later state */
  function Indexed(s: Cpu, s1: Cpu): word {
    var ea := Low16(Fetch(s, Low16(s.pc + 1)) + 0x100 * Fetch(s1, s1.pc) + s.x);
    Fetch(s1, ea) + 0x100 * Fetch(s1, Low16(ea + 1))
  }

  lemma IndexedTarget(s: Cpu, s1: Cpu)
    requires s1.pbr == s.pbr && s1.pc == Low16(s.pc + 2)
    ensures var entry := Low16(Behind(s, s.mem, 1) as int + 0x100 * Behind(s, s1.mem, 2) as int + s.x);
            Indexed(s, s1) == InBank(s, s1.mem, entry) as int + 0x100 * InBank(s, s1.mem, Low16(entry + 1)) as int
  {
  }

  /** JSL goes to the 24-bit address of the three bytes behind the opcode, of which the bank is read after the first
      push. */
  lemma JslGoes(s: Cpu)
    ensures var e := M.ExecCall(s, M.CJsl);
            && e.pc == OperandWord(s)
            && e.pbr == if s.pbr * 0x1_0000 + PcAfter(s, 3) == s.sp then s.pbr else Behind(s, s.mem, 3)
  {
    FetchIsBehind(s, 1);
    FetchIsBehind(s, 2);
    FetchIsBehind(s, 3);
  }

  /** It leaves its own bank and the address of its last byte below SP, and writes no other byte. */
  lemma JslStores(s: Cpu)
    ensures var e := M.ExecCall(s, M.CJsl);
            && e == s.(pc := e.pc, pbr := e.pbr, sp := Down(s, 3), mem := e.mem)
            && Stacked(s.mem, e.mem, [s.sp, OpenlyDown(s, 1), OpenlyDown(s, 2)],
                       [s.pbr, PcAfter(s, 3) / 0x100, PcAfter(s, 3) % 0x100])
  {
    var s1 := PushOpen(IncPc(s, 3), s.pbr);
    var s2 := s1.(pbr := Fetch(s1, s1.pc));
    LowIsRemainder(PcAfter(s, 3));
    OpenlyDownSteps(s);
    assert Jsl(s) == PushWordOpen(s2, PcAfter(s, 3)).(pc := Jsl(s).pc);
  }

  /** RTS takes the word above SP and goes on behind it. */
  lemma RtsGoes(s: Cpu)
    ensures M.ExecCall(s, M.CRts) == s.(pc := Low16(StackWord(s) + 1), sp := Up(s, 2))
  {
    PullWordTakes(s);
  }

  /** RTL takes three bytes above SP, the bank last. */
  lemma RtlGoes(s: Cpu)
    ensures var word := s.mem[OpenlyUp(s, 1)] as int + 0x100 * s.mem[OpenlyUp(s, 2)] as int;
            M.ExecCall(s, M.CRtl) == s.(pc := Low16(word + 1), pbr := s.mem[OpenlyUp(s, 3)], sp := Up(s, 3))
  {
  }

  // ---------------------------------------------------------------- interrupts

  /** The addresses of the vectors. */
  lemma VectorAddresses(emul: bool)
    ensures VectorOf(IrqVector, emul) == (if emul then 0xfffe else 0xffee)
    ensures VectorOf(NmiVector, emul) == (if emul then 0xfffa else 0xffea)
    ensures VectorOf(BrkVector, emul) == (if emul then 0xfffe else 0xffe6)
    ensures VectorOf(CopVector, emul) == (if emul then 0xfff4 else 0xffe4)
  {
  }

  /** The handler runs in bank zero with interrupts off and decimal mode off. */
  lemma HandlerRuns(s: Cpu, vector: word)
    ensures EnterHandler(s, vector) ==
            s.(pc := WordAt(s.mem, vector), pbr := 0, p := s.p.(d := false, i := true))
  {
  }

  lemma FrameKeepsMode(s: Cpu)
    ensures var t := PushFrame(s); t == s.(sp := t.sp, mem := t.mem)
  {
  }

  /** An interrupt goes to the word at its vector, as it is once the frame has been pushed. */
  lemma InterruptGoes(s: Cpu, k: Vector)
    ensures var e := Interrupt(s, k);
            && (k == IrqVector ==> e.pc == WordAt(e.mem, if s.emul then 0xfffe else 0xffee))
            && (k == NmiVector ==> e.pc == WordAt(e.mem, if s.emul then 0xfffa else 0xffea))
            && (k == BrkVector ==> e.pc == WordAt(e.mem, if s.emul then 0xfffe else 0xffe6))
            && (k == CopVector ==> e.pc == WordAt(e.mem, if s.emul then 0xfff4 else 0xffe4))
            && e.pbr == 0
  {
    VectorAddresses(s.emul);
    HandlerRuns(PushFrame(Entering(s, k)), VectorOf(k, s.emul));
  }

  /** IRQ, NMI, BRK and COP as they come in a run. */
  lemma EventsAre(s: Cpu)
    ensures M.Step(s, M.Irq) == Interrupt(s, IrqVector) && M.Step(s, M.Nmi) == Interrupt(s, NmiVector)
    ensures M.ExecCall(s, M.CBrk) == Interrupt(s.(pc := PcAfter(s, 2)), BrkVector)
    ensures M.ExecCall(s, M.CCop) == Interrupt(s.(pc := PcAfter(s, 2)), CopVector)
  {
    assert IncPc(IncPc(s, 1), 1) == s.(pc := PcAfter(s, 2));
  }

  /** Of the flags it changes D and I and, in emulation mode, the B bit, which is on for BRK and COP only. */
  lemma InterruptFlags(s: Cpu, k: Vector)
    ensures var e := Interrupt(s, k);
            && e.p == s.p.(d := false, i := true, x := if s.emul then k == BrkVector || k == CopVector else s.p.x)
            && e.fn == s.fn && e.fz == s.fz
  {
    FrameKeepsMode(Entering(s, k));
    HandlerRuns(PushFrame(Entering(s, k)), VectorOf(k, s.emul));
  }

  /** The frame does not reach the vectors. */
  ghost predicate VectorsSpared(s: Cpu) {
    forall a: Addr :: 0xffe4 <= a <= 0xffff ==> !InFrame(s.emul, s.sp, a)
  }

  /** With the frame away from the vectors, that is the word that was there before. */
  lemma HandlerAtVector(s: Cpu, k: Vector)
    requires VectorsSpared(s)
    ensures var target := if k == IrqVector then WordAt(s.mem, if s.emul then 0xfffe else 0xffee)
                          else if k == NmiVector then WordAt(s.mem, if s.emul then 0xfffa else 0xffea)
                          else if k == BrkVector then WordAt(s.mem, if s.emul then 0xfffe else 0xffe6)
                          else WordAt(s.mem, if s.emul then 0xfff4 else 0xffe4);
            Interrupt(s, k).pc == target && SoftwareInterrupt(s, k).pc == target
  {
    VectorKept(s, k);
    VectorKept(IncPc(IncPc(s, 1), 1), k);
    VectorAddresses(s.emul);
  }

  lemma VectorKept(s: Cpu, k: Vector)
    requires VectorsSpared(s)
    ensures Interrupt(s, k).pc == WordAt(s.mem, VectorOf(k, s.emul))
  {
    HandlerRuns(PushFrame(Entering(s, k)), VectorOf(k, s.emul));
    EntryElsewhere(s, k);
  }

  /** In emulation mode that is always so, in native mode when SP is not near them. */
  lemma VectorsAway(s: Cpu)
    requires ModeOk(s) && (s.emul || 4 <= s.sp < 0xffe4)
    ensures VectorsSpared(s)
  {
    forall a: Addr | 0xffe4 <= a <= 0xffff
      ensures !InFrame(s.emul, s.sp, a)
    {
      FrameIsLow(s.emul, s.sp, a);
    }
  }

  lemma FrameIsLow(emul: bool, sp: word, a: Addr)
    requires 0xffe4 <= a <= 0xffff && (emul ==> 0x100 <= sp < 0x200) && (!emul ==> 4 <= sp < 0xffe4)
    ensures !InFrame(emul, sp, a)
  {
    assert Slot(emul, sp, 1) == Below(emul, sp);
    assert Slot(emul, sp, 2) == Below(emul, Slot(emul, sp, 1));
    assert Slot(emul, sp, 3) == Below(emul, Slot(emul, sp, 2));
    assert Slot(emul, sp, 0) < a && Slot(emul, sp, 1) < a && Slot(emul, sp, 2) < a && Slot(emul, sp, 3) < a;
    forall k: nat | k < 4
      ensures Slot(emul, sp, k) < a
    {
      assert k == 0 || k == 1 || k == 2 || k == 3;
    }
  }

  /** A reset starts at the word at 0xfffc, in emulation mode with interrupts and decimal mode off, SP three down in
      page one, short index registers and banks and direct page zero; the rest is kept. */
  lemma ResetGoes(s: Cpu)
    ensures M.Step(s, M.Res) ==
            s.(pc := WordAt(s.mem, 0xfffc), pbr := 0, dbr := 0, dpr := 0, emul := true, sp := 0x100 + Low8(s.sp - 3),
               x := s.x % 0x100, y := s.y % 0x100, p := s.p.(x := false, i := true, d := false))
  {
    LowIsRemainder(s.x);
    LowIsRemainder(s.y);
    LowIsRemainder(s.sp);
    ByteSteps(s.sp);
    ByteSteps(s.sp - 1);
    ByteSteps(s.sp - 2);
  }

  // ---------------------------------------------------------------- pushes

  /** PEA pushes the word behind the opcode. */
  lemma PeaStores(s: Cpu)
    ensures var e := M.ExecPush(s, M.PPea);
            && e == s.(pc := PcAfter(s, 3), sp := Down(s, 2), mem := e.mem)
            && Stacked(s.mem, e.mem, [s.sp, OpenlyDown(s, 1)], [Behind(s, s.mem, 2), Behind(s, s.mem, 1)])
  {
    PeaIs(s);
    PushWordOpenStores(IncPc(s, 3), OperandWord(s), Behind(s, s.mem, 2), Behind(s, s.mem, 1));
  }

  lemma PeaIs(s: Cpu)
    ensures Pea(s) == PushWordOpen(IncPc(s, 3), OperandWord(s))
  {
    FetchIsBehind(s, 1);
    FetchIsBehind(s, 2);
  }

  /** PEI pushes the word in bank zero that its operand points at in the direct page. */
  lemma PeiStores(s: Cpu)
    ensures var e := M.ExecPush(s, M.PPei);
            var a := Low16(s.dpr + Behind(s, s.mem, 1));
            && e == s.(pc := PcAfter(s, 2), sp := Down(s, 2), mem := e.mem)
            && Stacked(s.mem, e.mem, [s.sp, OpenlyDown(s, 1)], [s.mem[Low16(a + 1)], s.mem[a]])
  {
    var a := Low16(s.dpr + Behind(s, s.mem, 1));
    PeiIs(s, a);
    var high := s.mem[Low16(a as int + 1)];
    PushWordOpenStores(IncPc(s, 2), s.mem[a] as int + 0x100 * high as int, high, s.mem[a]);
  }

  lemma PeiIs(s: Cpu, a: word)
    requires a == Low16(s.dpr + Behind(s, s.mem, 1))
    ensures Pei(s) == PushWordOpen(IncPc(s, 2), s.mem[a] as int + 0x100 * s.mem[Low16(a + 1)] as int)
  {
    FetchIsBehind(s, 1);
    Low16Twice(s.dpr + Behind(s, s.mem, 1), 1);
  }

  /** PER pushes the word behind the opcode, counted from the next instruction. */
  lemma PerStores(s: Cpu)
    ensures var e := M.ExecPush(s, M.PPer);
            var v := Low16(s.pc + 3 + OperandWord(s));
            && e == s.(pc := PcAfter(s, 3), sp := Down(s, 2), mem := e.mem)
            && Stacked(s.mem, e.mem, [s.sp, OpenlyDown(s, 1)], [v / 0x100, v % 0x100])
  {
    var v := PcAfter(s, 3) + OperandWord(s);
    PerIs(s);
    Low16Twice(s.pc + 3, OperandWord(s));
    PushWordOpenStores(IncPc(s, 3), v, Low16(v) / 0x100, Low16(v) % 0x100);
  }

  lemma PerIs(s: Cpu)
    ensures Per(s) == PushWordOpen(IncPc(s, 3), PcAfter(s, 3) + OperandWord(s))
  {
    FetchIsBehind(s, 1);
    FetchIsBehind(s, 2);
  }

  lemma Low16Twice(a: nat, b: nat)
    requires a < 0x2_0000 && b < 0x1_0000
    ensures Low16(Low16(a) + b) == Low16(a + b)
  {
    LowIsRemainder(a + b);
  }

  /** PHD pushes the direct page register. */
  lemma PhdStores(s: Cpu)
    ensures var e := M.ExecPush(s, M.PPhd);
            && e == s.(pc := PcAfter(s, 1), sp := Down(s, 2), mem := e.mem)
            && Stacked(s.mem, e.mem, [s.sp, OpenlyDown(s, 1)], [s.dpr / 0x100, s.dpr % 0x100])
  {
    PushWordOpenStores(IncPc(s, 1), s.dpr, s.dpr / 0x100, s.dpr % 0x100);
  }

  /** PHA pushes A, or C with a long accumulator, high byte first. */
  lemma PhaStores(s: Cpu)
    ensures var e := M.ExecPush(s, M.PPha);
            if s.emul || s.p.m then
              && e == s.(pc := PcAfter(s, 1), sp := Down(s, 1), mem := e.mem)
              && Stacked(s.mem, e.mem, [s.sp], [s.c % 0x100])
            else
              && e == s.(pc := PcAfter(s, 1), sp := Down(s, 2), mem := e.mem)
              && Stacked(s.mem, e.mem, [s.sp, Down(s, 1)], [s.c / 0x100, s.c % 0x100])
  {
    PushStores(IncPc(s, 1), s.c % 0x100);
    PushWordStores(IncPc(s, 1), s.c);
  }

  lemma IndexStored(s: Cpu, r: word)
    ensures var e := PushIndex(s, r); IndexPushed(s, e, r)
  {
    LowIsRemainder(r);
    PushStores(IncPc(s, 1), r % 0x100);
    PushWordStores(IncPc(s, 1), r);
  }

  /** One byte of a register, or two, by the width of the index registers */
  ghost predicate IndexPushed(s: Cpu, e: Cpu, r: word) {
    if s.emul || s.p.x then
      && e == s.(pc := PcAfter(s, 1), sp := Down(s, 1), mem := e.mem)
      && Stacked(s.mem, e.mem, [s.sp], [r % 0x100])
    else
      && e == s.(pc := PcAfter(s, 1), sp := Down(s, 2), mem := e.mem)
      && Stacked(s.mem, e.mem, [s.sp, Down(s, 1)], [r / 0x100, r % 0x100])
  }

  /** PHX pushes X and PHY pushes Y. */
  lemma IndexStores(s: Cpu)
    ensures IndexPushed(s, M.ExecPush(s, M.PPhx), s.x)
    ensures IndexPushed(s, M.ExecPush(s, M.PPhy), s.y)
  {
    IndexStored(s, s.x);
    IndexStored(s, s.y);
  }

  ghost predicate BytePushed(s: Cpu, e: Cpu, b: byte) {
    && e == s.(pc := PcAfter(s, 1), sp := Down(s, 1), mem := e.mem)
    && Stacked(s.mem, e.mem, [s.sp], [b])
  }

  /** PHB pushes the data bank and PHK the program bank. */
  lemma BankStores(s: Cpu)
    ensures BytePushed(s, M.ExecPush(s, M.PPhb), s.dbr)
    ensures BytePushed(s, M.ExecPush(s, M.PPhk), s.pbr)
  {
    PushStores(IncPc(s, 1), s.dbr);
    PushStores(IncPc(s, 1), s.pbr);
  }

  /** The status bit by bit, N and Z as they are now; bits 4 and 5 are on in emulation mode. */
  predicate StatusBits(s: Cpu, b: byte) {
    && BitOf(b, 7) == Sign(s) && BitOf(b, 6) == s.p.v && BitOf(b, 5) == (s.emul || s.p.m)
    && BitOf(b, 4) == (s.emul || s.p.x) && BitOf(b, 3) == s.p.d && BitOf(b, 2) == s.p.i
    && BitOf(b, 1) == Zero(s) && BitOf(b, 0) == s.p.c
  }

  lemma PushedBits(s: Cpu) returns (b: byte)
    requires !s.p.n && !s.p.z
    ensures b == ByteOf(PushedStatus(s)) && StatusBits(s, b)
  {
    b := ByteOf(PushedStatus(s));
    BitsAreFlags(PushedStatus(s));
  }

  /** PHP pushes it. */
  lemma PhpStores(s: Cpu) returns (b: byte)
    requires !s.p.n && !s.p.z
    ensures BytePushed(s, M.ExecPush(s, M.PPhp), b) && StatusBits(s, b)
  {
    b := PushedBits(s);
    PhpIs(s, b);
  }

  lemma PhpIs(s: Cpu, b: byte)
    requires b == ByteOf(PushedStatus(s))
    ensures BytePushed(s, Php(s), b)
  {
    PushStores(IncPc(s, 1), b);
  }

  // ---------------------------------------------------------------- pulls

  /** PLA takes a byte into A, keeping the high byte of C, or a word into C. */
  lemma PlaTakes(s: Cpu)
    ensures var e := M.ExecPull(s, M.LPla);
            var b := s.mem[Up(s, 1)];
            if s.emul || s.p.m then
              && e == s.(pc := PcAfter(s, 1), sp := Up(s, 1), c := s.c / 0x100 * 0x100 + b, fn := e.fn, fz := e.fz)
              && Flagged(e, b, true)
            else
              && e == s.(pc := PcAfter(s, 1), sp := Up(s, 2), c := StackWord(s), fn := e.fn, fz := e.fz)
              && Flagged(e, StackWord(s), false)
  {
    UpIsAbove(s);
    PullWordTakes(s);
    FlagsOfResult(s, Pulled(s), true);
    FlagsOfResult(s, PulledWord(s), false);
  }

  /** What a pull of an index register takes. */
  function IndexOnStack(s: Cpu): word {
    if s.emul || s.p.x then s.mem[Up(s, 1)] else StackWord(s)
  }

  /** PLX takes X and PLY takes Y, in the width of the index registers. */
  lemma IndexTakes(s: Cpu)
    ensures var e, v, bits8 := M.ExecPull(s, M.LPlx), IndexOnStack(s), s.emul || s.p.x;
            && e == s.(pc := PcAfter(s, 1), sp := Up(s, if bits8 then 1 else 2), x := v, fn := e.fn, fz := e.fz)
            && Flagged(e, v, bits8)
    ensures var e, v, bits8 := M.ExecPull(s, M.LPly), IndexOnStack(s), s.emul || s.p.x;
            && e == s.(pc := PcAfter(s, 1), sp := Up(s, if bits8 then 1 else 2), y := v, fn := e.fn, fz := e.fz)
            && Flagged(e, v, bits8)
  {
    UpIsAbove(s);
    PullWordTakes(s);
    FlagsOfResult(s, PulledIndex(s), X8(s));
  }

  /** PLB takes the data bank. */
  lemma BankTakes(s: Cpu)
    ensures var e, b := M.ExecPull(s, M.LPlb), s.mem[Up(s, 1)];
            && e == s.(pc := PcAfter(s, 1), sp := Up(s, 1), dbr := b, fn := e.fn, fz := e.fz)
            && Flagged(e, b, true)
  {
    UpIsAbove(s);
    FlagsOfResult(s, Pulled(s), true);
  }

  /** PLD takes the direct page register, SP being confined at the end only. */
  lemma DirectPageTakes(s: Cpu)
    ensures var e := M.ExecPull(s, M.LPld);
            var d := s.mem[OpenlyUp(s, 1)] as int + 0x100 * s.mem[OpenlyUp(s, 2)] as int;
            && e == s.(pc := PcAfter(s, 1), sp := Up(s, 2), dpr := d, fn := e.fn, fz := e.fz)
            && Flagged(e, d, false)
  {
    OpenUpIsUp(s, 2);
    FlagsOfResult(s, OpenByte(s, 1) as int + 0x100 * OpenByte(s, 2) as int, false);
  }

  lemma OpenUpIsUp(s: Cpu, k: nat)
    requires k <= 3
    ensures OpenUp(s, k).sp == if k == 0 && !s.emul then s.sp else Up(s, k)
  {
    LowIsRemainder(s.sp + k);
  }

  /** PLP takes the flags from the bits of a byte; eight-bit index registers lose their high bytes. */
  lemma FlagsTaken(s: Cpu)
    ensures var e, b := M.ExecPull(s, M.LPlp), s.mem[Up(s, 1)];
            && Sign(e) == BitOf(b, 7) && e.p.v == BitOf(b, 6) && e.p.m == BitOf(b, 5) && e.p.x == BitOf(b, 4)
            && e.p.d == BitOf(b, 3) && e.p.i == BitOf(b, 2) && Zero(e) == BitOf(b, 1) && e.p.c == BitOf(b, 0)
            && !e.p.n && !e.p.z
            && e == s.(pc := PcAfter(s, 1), sp := Up(s, 1), p := e.p, fn := e.fn, fz := e.fz,
                       x := if s.emul || e.p.x then s.x % 0x100 else s.x,
                       y := if s.emul || e.p.x then s.y % 0x100 else s.y)
  {
    var b := s.mem[Up(s, 1)];
    UpIsAbove(s);
    FlagsAreBits(b);
    ByteRoundTrip(b);
    StatusNarrowed(PullSp(IncPc(s, 1)), FlagsOf(b));
    LowIsRemainder(s.x);
    LowIsRemainder(s.y);
  }

  // ---------------------------------------------------------------- mode switches

  /** REP and SEP change the flags (`RepSepMeans`) and, when SEP turns X on, the high bytes of the index registers. */
  lemma RepSepNarrows(s: Cpu, v: bool)
    ensures var e := M.ExecMode(s, if v then M.Sep else M.Rep);
            var narrows := v && !s.emul && BitOf(Behind(s, s.mem, 1), 4);
            e == s.(pc := PcAfter(s, 2), p := e.p, fn := e.fn, fz := e.fz,
                    x := if narrows then s.x % 0x100 else s.x, y := if narrows then s.y % 0x100 else s.y)
  {
    FetchIsBehind(s, 1);
    FlagsAreBits(Behind(s, s.mem, 1));
    LowIsRemainder(s.x);
    LowIsRemainder(s.y);
  }

  /** XCE, one way and the other. */
  lemma XceChanges(s: Cpu)
    ensures s.p.c == s.emul ==> M.ExecMode(s, M.XceOp) == s.(pc := PcAfter(s, 1))
    ensures s.p.c && !s.emul ==>
              M.ExecMode(s, M.XceOp) == s.(pc := PcAfter(s, 1), emul := true, p := s.p.(c := false, x := false),
                           x := s.x % 0x100, y := s.y % 0x100, sp := 0x100 + s.sp % 0x100)
    ensures !s.p.c && s.emul ==>
              M.ExecMode(s, M.XceOp) == s.(pc := PcAfter(s, 1), emul := false,
                                           p := s.p.(c := true, m := true, x := true))
  {
    LowIsRemainder(s.x);
    LowIsRemainder(s.y);
  }

  // ---------------------------------------------------------------- registers

  /** The index registers by instruction: what each gets, and that N and Z speak of it. */
  lemma IndexGets(s: Cpu, i: M.Index, operand: word)
    requires ModeOk(s)
    ensures var e := M.ExecIndex(s, i, operand);
            var bits8 := s.emul || s.p.x;
            var width := if bits8 then 0x100 else 0x1_0000;
            && (i.LoadX? ==> e.x == operand % width) && (i.LoadY? ==> e.y == operand % width)
            && (i.IncX? ==> e.x == (s.x + 1) % width) && (i.IncY? ==> e.y == (s.y + 1) % width)
            && (i.DecX? ==> e.x == (s.x - 1) % width) && (i.DecY? ==> e.y == (s.y - 1) % width)
            && (i.Tax? ==> e.x == s.c % width) && (i.Tay? ==> e.y == s.c % width)
            && (i.Tsx? ==> e.x == s.sp % width) && (i.Txy? ==> e.y == s.x) && (i.Tyx? ==> e.x == s.y)
  {
    LowIsRemainder(operand);
    LowIsRemainder(s.x + 1);
    LowIsRemainder(s.y + 1);
    LowIsRemainder(s.x - 1);
    LowIsRemainder(s.y - 1);
    LowIsRemainder(s.c);
    LowIsRemainder(s.sp);
  }

  lemma IndexSet(s: Cpu, v: word)
    requires X8(s) ==> v < 0x100
    ensures var e := M.SetIndexX(s, v); e == s.(x := v, fn := e.fn, fz := e.fz) && Flagged(e, v, s.emul || s.p.x)
    ensures var e := M.SetIndexY(s, v); e == s.(y := v, fn := e.fn, fz := e.fz) && Flagged(e, v, s.emul || s.p.x)
  {
    FlagsOfResult(s, v, X8(s));
  }

  predicate OnX(i: M.Index) {
    i.LoadX? || i.IncX? || i.DecX? || i.Tax? || i.Tsx? || i.Tyx?
  }

  /** The instructions on X change X, those on Y change Y, and N and Z speak of it. */
  lemma IndexKeeps(s: Cpu, i: M.Index, operand: word)
    requires ModeOk(s)
    ensures var e := M.ExecIndex(s, i, operand);
            if OnX(i) then e == s.(x := e.x, fn := e.fn, fz := e.fz) && Flagged(e, e.x, s.emul || s.p.x)
            else e == s.(y := e.y, fn := e.fn, fz := e.fz) && Flagged(e, e.y, s.emul || s.p.x)
  {
    var e := M.ExecIndex(s, i, operand);
    IndexSet(s, if OnX(i) then e.x else e.y);
    assert e == if OnX(i) then M.SetIndexX(s, e.x) else M.SetIndexY(s, e.y);
  }

  /** TCS and TXS: the whole register, or its low byte in page one. */
  lemma StackPointerGets(s: Cpu)
    requires ModeOk(s)
    ensures M.ExecMode(s, M.Tcs) == s.(pc := PcAfter(s, 1), sp := if s.emul then 0x100 + s.c % 0x100 else s.c)
    ensures M.ExecMode(s, M.Txs) == s.(pc := PcAfter(s, 1), sp := if s.emul then 0x100 + s.x else s.x)
  {
  }

  // ---------------------------------------------------------------- block moves

  /** One step of an index register, up or down, in its width. */
  function StepOf(s: Cpu, r: word, up: bool): int {
    var r' := if up then r + 1 else r - 1;
    if s.emul || s.p.x then r' % 0x100 else r' % 0x1_0000
  }

  /** One execution of MVN (upwards) or MVP (downwards): the byte at X in the bank that the second operand byte names
      goes to Y in the bank that the first one names, which becomes the data bank; X and Y make a step, C counts down,
      and the program counter moves on only from zero. */
  lemma MoveMeans(s: Cpu, up: bool)
    requires s.pc <= 0xfffd && (s.emul || s.p.x ==> s.x < 0x100 && s.y < 0x100)
    ensures var dst, src := Behind(s, s.mem, 1) as nat, Behind(s, s.mem, 2) as nat;
            M.ExecMode(s, if up then M.Mvn else M.Mvp) ==
            s.(mem := s.mem[dst * 0x1_0000 + s.y := s.mem[src * 0x1_0000 + s.x]], dbr := dst,
               x := StepOf(s, s.x, up), y := StepOf(s, s.y, up), c := if s.c == 0 then 0xffff else s.c - 1,
               pc := if s.c == 0 then Low16(s.pc + 3) else s.pc)
  {
    OperandFetches(s);
    SteppedIs(s, s.x, up);
    SteppedIs(s, s.y, up);
  }

  lemma SteppedIs(s: Cpu, r: word, up: bool)
    requires s.emul || s.p.x ==> r < 0x100
    ensures Stepped(r, up, X8(s)) == StepOf(s, r, up)
  {
    LowIsRemainder(r + 1);
    LowIsRemainder(r - 1);
  }

  lemma OperandFetches(s: Cpu)
    requires s.pc <= 0xfffd
    ensures IncPc(s, 1).pc == s.pc + 1 && IncPc(IncPc(s, 1), 1).pc == s.pc + 2
    ensures IncPc(IncPc(IncPc(s, 1), 1), 1).pc == Low16(s.pc + 3)
    ensures Fetch(s, s.pc + 1) == Behind(s, s.mem, 1) && Fetch(s, s.pc + 2) == Behind(s, s.mem, 2)
  {
  }

  /** The `i`-th of the indices */
  function Along(r: word, up: bool, i: nat): int {
    if up then r + i else r - i
  }

  /** A whole move, started with C one less than the number of bytes, within the width of the index registers and with
      its ranges apart or overlapping in the harmless direction: every byte has arrived. */
  lemma MoveArrives(s: Cpu, up: bool, i: nat)
    requires MoveOk(s, up) && i <= s.c
    requires var width := if s.emul || s.p.x then 0x100 else 0x1_0000;
             if up then s.x + s.c < width && s.y + s.c < width else s.c <= s.x && s.c <= s.y
    requires || Behind(s, s.mem, 1) != Behind(s, s.mem, 2)
             || (if up then s.y <= s.x || s.x + s.c < s.y else s.x <= s.y || s.y + s.c < s.x)
    ensures var dst, src := Behind(s, s.mem, 1) as nat, Behind(s, s.mem, 2) as nat;
            Moves(s, up, s.c + 1).mem[Along(s.y, up, i) + dst * 0x1_0000]
            == s.mem[Along(s.x, up, i) + src * 0x1_0000]
  {
    var j := JobOf(s, up);
    JobMeans(s, up);
    JobArrives(s.mem, j, s.c + 1, i);
    MovedMemory(s, up);
  }

  lemma MovedMemory(s: Cpu, up: bool)
    requires MoveOk(s, up)
    ensures Moves(s, up, s.c + 1).mem == Copied(s.mem, JobOf(s, up), s.c + 1)
  {
    MoveRuns(s, up);
  }

  /** The second byte behind the opcode names the source bank, the first one the destination bank. */
  lemma JobMeans(s: Cpu, up: bool)
    requires s.pc <= 0xfffd
    ensures JobOf(s, up) == Job(up, Behind(s, s.mem, 2), Behind(s, s.mem, 1), s.x, s.y,
                                if s.emul || s.p.x then 0x100 else 0x1_0000)
  {
    OperandFetches(s);
  }

  lemma JobArrives(m: Memory, j: Job, k: nat, i: nat)
    requires ValidJob(j) && NoWrap(j, k) && i < k
    requires || j.src != j.dst
             || (if j.up then j.y <= j.x || j.x + k <= j.y else j.x <= j.y || j.y + k <= j.x)
    ensures Copied(m, j, k)[Along(j.y, j.up, i) + j.dst * 0x1_0000] == m[Along(j.x, j.up, i) + j.src * 0x1_0000]
  {
    PlainAddress(j, k, i);
    if j.src == j.dst {
      NoWrapIff(j, k);
    } else {
      MemmoveIff(j, k);
    }
    assert Load(Copied(m, j, k), Dst(j, i)) == Load(m, Src(j, i));
  }
}
