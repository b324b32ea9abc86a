/**
 Interrupt entry, BRK and COP of the 65816 against RTI: what the frame holds, that nothing else is
 written, and that RTI after any handler that leaves the frame and the index registers alone goes
 back to where the program was, in the mode it was in.
 */
module Interrupts65816 {
  import opened Basics
  import opened StatusRegister
  import opened Wdc65816

  // ---------------------------------------------------------------- the frame

  /** Where the `k`-th byte pushed from `sp` goes. */
  function Slot(emul: bool, sp: word, k: nat): word {
    if k == 0 then sp else Below(emul, Slot(emul, sp, k - 1))
  }

  function FrameSize(emul: bool): nat {
    if emul then 3 else 4
  }

  ghost predicate InFrame(emul: bool, sp: word, a: nat) {
    exists k :: 0 <= k < FrameSize(emul) && a == Slot(emul, sp, k)
  }

  /** `LOCAL_65816_X` implies short index registers, emulation mode a stack pointer in page one, and
      `reg_p` never holds the two lazy flags: what every reachable state satisfies. */
  predicate ModeOk(s: Cpu) {
    && (s.emul ==> 0x100 <= s.sp < 0x200)
    && (X8(s) ==> s.x < 0x100 && s.y < 0x100)
    && !s.p.n && !s.p.z
  }

  lemma SlotsDistinct(emul: bool, sp: word)
    requires emul ==> 0x100 <= sp < 0x200
    ensures var s1 := Slot(emul, sp, 1);
            var s2 := Slot(emul, sp, 2);
            var s3 := Slot(emul, sp, 3);
            && sp != s1 && sp != s2 && sp != s3 && s1 != s2 && s1 != s3 && s2 != s3
            && Above(emul, s1) == sp && Above(emul, s2) == s1 && Above(emul, s3) == s2
            && Above(emul, Slot(emul, sp, 4)) == s3
  {
    BelowAbove(emul, sp);
    BelowAbove(emul, Slot(emul, sp, 1));
    BelowAbove(emul, Slot(emul, sp, 2));
    BelowAbove(emul, Slot(emul, sp, 3));
  }

  // ---------------------------------------------------------------- entry

  /** The status that the entry saves: in emulation mode the B bit tells BRK and COP from the rest. */
  function SavedStatus(s: Cpu, k: Vector): P {
    if s.emul then Status(s).(m := true, x := k == BrkVector || k == CopVector) else Status(s)
  }

  /** The frame of a program at `pc` with status `p` is on the stack below `sp`. */
  predicate FrameAt(m: Memory, emul: bool, sp: word, pbr: byte, pc: word, b: byte) {
    var base := if emul then 0 else 1;
    && (emul || Load(m, sp) == pbr)
    && Load(m, Slot(emul, sp, base)) == pc / 0x100
    && Load(m, Slot(emul, sp, base + 1)) == pc % 0x100
    && Load(m, Slot(emul, sp, base + 2)) == b
  }

  /** An interrupt saves the program's place and status, writes no other byte, and starts the handler
      in bank zero with interrupts off, decimal mode off and every other register as it was. */
  lemma EntrySaves(s: Cpu, k: Vector)
    requires ModeOk(s)
    ensures var e := Interrupt(s, k);
            && FrameAt(e.mem, s.emul, s.sp, s.pbr, s.pc, ByteOf(SavedStatus(s, k)))
            && e.sp == Slot(s.emul, s.sp, FrameSize(s.emul))
            && e.pbr == 0 && e.p.i && !e.p.d
            && e.c == s.c && e.x == s.x && e.y == s.y && e.dbr == s.dbr && e.dpr == s.dpr && e.emul == s.emul
    ensures forall a: Addr :: !InFrame(s.emul, s.sp, a) ==> Load(Interrupt(s, k).mem, a) == Load(s.mem, a)
  {
    EntryFrame(s, k);
    EntryElsewhere(s, k);
  }

  /** Three pushes, the last three bytes of every frame. */
  lemma ThreePushes(s: Cpu, u: byte, v: int, w: byte)
    requires s.emul ==> 0x100 <= s.sp < 0x200
    ensures var t := Push(Push(Push(s, u), v), w);
            && t == s.(sp := Slot(s.emul, s.sp, 3), mem := t.mem)
            && Load(t.mem, s.sp) == u && Load(t.mem, Slot(s.emul, s.sp, 1)) == Low8(v)
            && Load(t.mem, Slot(s.emul, s.sp, 2)) == w
  {
    SlotsDistinct(s.emul, s.sp);
  }

  /** The native frame has one more byte, above the others, which they do not overwrite. */
  lemma BankPushed(s: Cpu, u: byte, v: int, w: byte)
    requires !s.emul
    ensures var s1 := Push(s, s.pbr);
            var t := Push(Push(Push(s1, u), v), w);
            && s1 == s.(sp := Slot(false, s.sp, 1), mem := s1.mem)
            && Load(t.mem, s.sp) == s.pbr
  {
    SlotsDistinct(false, s.sp);
  }

  /** The slots counted from the second one. */
  lemma SlotsShift(emul: bool, sp: word)
    ensures var sp1 := Slot(emul, sp, 1);
            && Slot(emul, sp1, 1) == Slot(emul, sp, 2) && Slot(emul, sp1, 2) == Slot(emul, sp, 3)
            && Slot(emul, sp1, 3) == Slot(emul, sp, 4)
  {
  }

  lemma NativeFrame(s: Cpu)
    requires !s.emul
    ensures var t := PushFrame(s);
            t == s.(sp := Slot(false, s.sp, 4), mem := t.mem)
            && FrameAt(t.mem, false, s.sp, s.pbr, s.pc, StatusByte(s))
  {
    var b := StatusByte(s);
    LowIsRemainder(s.pc);
    BankPushed(s, s.pc / 0x100, s.pc, b);
    ThreePushes(Push(s, s.pbr), s.pc / 0x100, s.pc, b);
    SlotsShift(false, s.sp);
  }

  lemma PushFrameSaves(s: Cpu)
    requires s.emul ==> 0x100 <= s.sp < 0x200
    ensures var t := PushFrame(s);
            && t == s.(sp := Slot(s.emul, s.sp, FrameSize(s.emul)), mem := t.mem)
            && FrameAt(t.mem, s.emul, s.sp, s.pbr, s.pc, StatusByte(s))
  {
    if s.emul {
      LowIsRemainder(s.pc);
      ThreePushes(s, s.pc / 0x100, s.pc, StatusByte(s));
    } else {
      NativeFrame(s);
    }
  }

  lemma EntryFrame(s: Cpu, k: Vector)
    requires ModeOk(s)
    ensures var e := Interrupt(s, k);
            && FrameAt(e.mem, s.emul, s.sp, s.pbr, s.pc, ByteOf(SavedStatus(s, k)))
            && e.sp == Slot(s.emul, s.sp, FrameSize(s.emul))
            && e.pbr == 0 && e.p.i && !e.p.d
            && e.c == s.c && e.x == s.x && e.y == s.y && e.dbr == s.dbr && e.dpr == s.dpr && e.emul == s.emul
  {
    PushFrameSaves(Entering(s, k));
    assert SavedStatus(s, k) == if s.emul then StatusEmul(Entering(s, k)) else Status(Entering(s, k));
  }

  lemma EntryElsewhere(s: Cpu, k: Vector)
    ensures forall a: Addr :: !InFrame(s.emul, s.sp, a) ==> Load(Interrupt(s, k).mem, a) == Load(s.mem, a)
  {
    forall a: Addr | !InFrame(s.emul, s.sp, a)
      ensures Load(Interrupt(s, k).mem, a) == Load(s.mem, a)
    {
      PushFrameElsewhere(Entering(s, k), a);
    }
  }

  lemma PushFrameElsewhere(s: Cpu, a: Addr)
    requires !InFrame(s.emul, s.sp, a)
    ensures Load(PushFrame(s).mem, a) == Load(s.mem, a)
  {
    assert a != Slot(s.emul, s.sp, 0) && a != Slot(s.emul, s.sp, 1) && a != Slot(s.emul, s.sp, 2);
    if !s.emul {
      assert a != Slot(s.emul, s.sp, 3);
      SlotsShift(false, s.sp);
    }
  }

  // ---------------------------------------------------------------- return

  /** The bytes that RTI pulls are those of the frame, and the stack pointer is back above it. */
  lemma RtiPulls(h: Cpu, sp: word, pbr: byte, pc: word, b: byte)
    requires h.emul ==> 0x100 <= sp < 0x200
    requires h.sp == Slot(h.emul, sp, FrameSize(h.emul)) && FrameAt(h.mem, h.emul, sp, pbr, pc, b)
    ensures var s2 := Narrow(SetStatus(PullSp(IncPc(h, 1)), b));
            && Pulled(h) == b
            && Rti(h) == s2.(sp := sp, pc := pc, pbr := if h.emul then h.pbr else pbr)
  {
    SlotsDistinct(h.emul, sp);
  }

  /** What RTI does with a frame. */
  lemma RtiRestores(h: Cpu, sp: word, pbr: byte, pc: word, p: P)
    requires h.emul ==> 0x100 <= sp < 0x200
    requires h.sp == Slot(h.emul, sp, FrameSize(h.emul)) && FrameAt(h.mem, h.emul, sp, pbr, pc, ByteOf(p))
    ensures var r := Rti(h);
            && r.pc == pc && r.sp == sp && r.pbr == (if h.emul then h.pbr else pbr)
            && r.p == p.(n := false, z := false) && Sign(r) == p.n && Zero(r) == p.z
            && r.c == h.c && r.dbr == h.dbr && r.dpr == h.dpr && r.emul == h.emul && r.mem == h.mem
            && r.x == (if X8(r) then Low8(h.x) else h.x) && r.y == (if X8(r) then Low8(h.y) else h.y)
  {
    RtiPulls(h, sp, pbr, pc, ByteOf(p));
    StatusNarrowed(PullSp(IncPc(h, 1)), p);
  }

  lemma StatusNarrowed(s: Cpu, p: P)
    ensures var t := Narrow(SetStatus(s, ByteOf(p)));
            && t.p == p.(n := false, z := false) && Sign(t) == p.n && Zero(t) == p.z
            && t.x == (if X8(t) then Low8(s.x) else s.x) && t.y == (if X8(t) then Low8(s.y) else s.y)
            && t == s.(p := t.p, fn := t.fn, fz := t.fz, x := t.x, y := t.y)
  {
    StatusLoaded(s, p);
  }

  /** A handler that began in state `e` is about to execute RTI in state `h`: the stack is balanced,
      the index registers and the mode are back and the frame of the interrupted state has been left
      alone. C, the data bank, the direct page, the flags and all other memory are its own business. */
  ghost predicate HandlerDone(sp: word, e: Cpu, h: Cpu) {
    && h.emul == e.emul && h.sp == e.sp && h.x == e.x && h.y == e.y
    && (h.emul ==> h.pbr == e.pbr)
    && forall a: Addr :: InFrame(e.emul, sp, a) ==> Load(h.mem, a) == Load(e.mem, a)
  }

  lemma FrameKept(sp: word, e: Cpu, h: Cpu, pbr: byte, pc: word, b: byte)
    requires HandlerDone(sp, e, h) && FrameAt(e.mem, e.emul, sp, pbr, pc, b)
    ensures FrameAt(h.mem, e.emul, sp, pbr, pc, b)
  {
    assert InFrame(e.emul, sp, Slot(e.emul, sp, 0));
    assert InFrame(e.emul, sp, Slot(e.emul, sp, 1));
    assert InFrame(e.emul, sp, Slot(e.emul, sp, 2));
    assert e.emul || InFrame(e.emul, sp, Slot(e.emul, sp, 3));
  }

  /** RTI returns from an interrupt: program counter, bank, stack pointer, index registers and every
      status flag are restored in native mode. In emulation mode they are up to the unused bit and the
      B bit, except that the frame has no bank: a program outside bank zero is not returned to. */
  lemma InterruptReturns(s: Cpu, k: Vector, h: Cpu)
    requires ModeOk(s)
    requires HandlerDone(s.sp, Interrupt(s, k), h)
    ensures var r := Rti(h);
            && r.pc == s.pc && r.pbr == (if s.emul then 0 else s.pbr) && r.sp == s.sp
            && r.x == s.x && r.y == s.y && r.emul == s.emul
            && r.p == (if s.emul then s.p.(m := true, x := k == BrkVector || k == CopVector) else s.p)
            && Sign(r) == Sign(s) && Zero(r) == Zero(s)
            && r.c == h.c && r.dbr == h.dbr && r.dpr == h.dpr && r.mem == h.mem
  {
    EntryFrame(s, k);
    FrameKept(s.sp, Interrupt(s, k), h, s.pbr, s.pc, ByteOf(SavedStatus(s, k)));
    RtiRestores(h, s.sp, s.pbr, s.pc, SavedStatus(s, k));
    SavedFlags(s, k);
  }

  lemma SavedFlags(s: Cpu, k: Vector)
    requires !s.p.n && !s.p.z
    ensures var p := SavedStatus(s, k);
            && p.(n := false, z := false)
               == (if s.emul then s.p.(m := true, x := k == BrkVector || k == CopVector) else s.p)
            && p.n == Sign(s) && p.z == Zero(s)
  {
  }

  /** BRK and COP come back to the byte after their signature. */
  lemma SoftwareInterruptReturns(s: Cpu, k: Vector, h: Cpu)
    requires ModeOk(s)
    requires HandlerDone(s.sp, SoftwareInterrupt(s, k), h)
    ensures var r := Rti(h);
            && r.pc == Low16(s.pc + 2) && r.pbr == (if s.emul then 0 else s.pbr) && r.sp == s.sp
            && r.x == s.x && r.y == s.y
            && r.p == (if s.emul then s.p.(m := true, x := k == BrkVector || k == CopVector) else s.p)
            && Sign(r) == Sign(s) && Zero(r) == Zero(s) && r.emul == s.emul
  {
    InterruptReturns(IncPc(IncPc(s, 1), 1), k, h);
  }
}
