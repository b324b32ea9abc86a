/**
 The addressing modes of STA and LDA on the 65816. The source has one macro for both directions, with
 branches that compute the address differently for a store and for a load; here both are written out
 and shown to meet, whatever wraps.
 */
module Addressing65816 {
  import opened Basics
  import opened StatusRegister
  import opened Wdc65816

  datatype Mode = Direct | DirectX | Indirect | IndirectX | IndirectY | IndirectLong | IndirectLongY
    | Absolute | AbsoluteX | AbsoluteY | Long | LongX | StackRel | StackRelY

  /** The operand bytes behind the opcode. */
  datatype Operand = Operand(p1: byte, p2: byte, p3: byte)

  function OperandOf(s: Cpu): Operand {
    Operand(Fetch(s, Low16(s.pc + 1)), Fetch(s, Low16(s.pc + 2)), Fetch(s, Low16(s.pc + 3)))
  }

  function Length(mode: Mode): nat {
    match mode
    case Absolute => 3
    case AbsoluteX => 3
    case AbsoluteY => 3
    case Long => 4
    case LongX => 4
    case _ => 2
  }

  // ---------------------------------------------------------------- pointers

  /** In emulation mode with an aligned direct page, the page wraps. */
  predicate PageWraps(s: Cpu) {
    s.emul && s.dpr % 0x100 == 0
  }

  /** Where the first byte of the pointer of an indirect mode is read. */
  function PointerLow(s: Cpu, mode: Mode, p1: byte): word {
    match mode
    case IndirectX => if PageWraps(s) then Low16(Low8(p1 + s.x) + s.dpr) else Low16(p1 + s.x + s.dpr)
    case StackRelY => Low16(p1 + s.sp)
    case _ => Low16(p1 + s.dpr)
  }

  function PointerHigh(s: Cpu, mode: Mode, p1: byte): word {
    match mode
    case IndirectX => if PageWraps(s) then Low16(Low8(p1 + s.x + 1) + s.dpr) else Low16(p1 + s.x + s.dpr + 1)
    case StackRelY => Low16(p1 + s.sp + 1)
    case IndirectLong => Low16(p1 + s.dpr + 1)
    case IndirectLongY => Low16(p1 + s.dpr + 1)
    case _ => if PageWraps(s) && p1 == 0xff then s.dpr else Low16(p1 + s.dpr + 1)
  }

  /** The bank byte of the two long modes. */
  function PointerBank(s: Cpu, p1: byte): word {
    Low16(p1 + s.dpr + 2)
  }

  predicate IsIndirect(mode: Mode) {
    mode in {Indirect, IndirectX, IndirectY, IndirectLong, IndirectLongY, StackRelY}
  }

  predicate IsLong(mode: Mode) {
    mode == IndirectLong || mode == IndirectLongY
  }

  /** The pointer of an indirect mode. */
  datatype Ptr = Ptr(low: byte, high: byte, bank: byte)

  function PointerOf(s: Cpu, mode: Mode, p1: byte): Ptr {
    Ptr(Load(s.mem, PointerLow(s, mode, p1)), Load(s.mem, PointerHigh(s, mode, p1)), Load(s.mem, PointerBank(s, p1)))
  }

  function Word(p: Ptr): word {
    p.low + 0x100 * p.high
  }

  /** The bytes of the pointer, none for the modes that have none. */
  ghost predicate InPointer(s: Cpu, mode: Mode, p1: byte, a: nat) {
    && IsIndirect(mode)
    && (a == PointerLow(s, mode, p1) || a == PointerHigh(s, mode, p1) || (IsLong(mode) && a == PointerBank(s, p1)))
  }

  // ---------------------------------------------------------------- effective addresses

  /** The `& 0xffffff` of the source. */
  function Low24(v: nat): Addr {
    InSpace(v)
  }

  /** `DIRECT_PAGE_R_FUNC` with X */
  function DirectIndexed(s: Cpu, p1: byte): word {
    if PageWraps(s) then Low16(Low8(p1 + s.x) + s.dpr) else Low16(p1 + s.x + s.dpr)
  }

  /** The address STA writes its first byte to, given the pointer. */
  function StoreAt(s: Cpu, mode: Mode, o: Operand, p: Ptr): Addr {
    match mode
    case Direct => Low16(o.p1 + s.dpr)
    case DirectX => DirectIndexed(s, o.p1)
    case Indirect => Word(p) + s.dbr * 0x1_0000
    case IndirectX => Word(p) + s.dbr * 0x1_0000
    case IndirectY =>
      var page := 0x100 * p.high + s.dbr * 0x1_0000;
      Low24(p.low + page + s.y)
    case IndirectLong => Word(p) + 0x1_0000 * p.bank
    case IndirectLongY => Low24(Word(p) + 0x1_0000 * p.bank + s.y)
    case Absolute => o.p1 + 0x100 * o.p2 + s.dbr * 0x1_0000
    case AbsoluteX =>
      var page := 0x100 * o.p2 + s.dbr * 0x1_0000;
      Low24(o.p1 + s.x + page)
    case AbsoluteY =>
      var page := 0x100 * o.p2 + s.dbr * 0x1_0000;
      Low24(o.p1 + s.y + page)
    case Long => o.p1 + 0x100 * o.p2 + 0x1_0000 * o.p3
    case LongX => Low24(o.p1 + 0x100 * o.p2 + 0x1_0000 * o.p3 + s.x)
    case StackRel => Low16(o.p1 + s.sp)
    case StackRelY => Low24(Word(p) + s.y + s.dbr * 0x1_0000)
  }

  function StoreAddress(s: Cpu, mode: Mode, o: Operand): Addr {
    StoreAt(s, mode, o, PointerOf(s, mode, o.p1))
  }

  /** The address LDA reads its first byte from, given the pointer. */
  function LoadAt(s: Cpu, mode: Mode, o: Operand, p: Ptr): Addr {
    match mode
    case IndirectY =>
      if s.y + p.low > 0xff then
        var ea := p.low + 0x100 * p.high;
        Low24(ea + s.y + s.dbr * 0x1_0000)
      else
        Low24(Word(p) + s.y + s.dbr * 0x1_0000)
    case AbsoluteX => LoadIndexed(s, o, s.x)
    case AbsoluteY => LoadIndexed(s, o, s.y)
    case _ => StoreAt(s, mode, o, p)
  }

  function LoadAddress(s: Cpu, mode: Mode, o: Operand): Addr {
    LoadAt(s, mode, o, PointerOf(s, mode, o.p1))
  }

  /** `ABS_R_FUNC`, loading: an extra cycle when the index carries into the page or is long */
  function LoadIndexed(s: Cpu, o: Operand, r: word): Addr {
    if !X8(s) || o.p1 + r > 0xff then
      var page := 0x100 * o.p2 + s.dbr * 0x1_0000;
      Low24(o.p1 + r + page)
    else Low24(o.p1 + 0x100 * o.p2 + r + s.dbr * 0x1_0000)
  }

  /** The address of the second byte: bank zero wraps, the rest of the memory only as a whole. */
  function Next(mode: Mode, a: Addr): Addr {
    if mode in {Direct, DirectX, StackRel} then Low16(a + 1) else Low24(a + 1)
  }

  // ---------------------------------------------------------------- the instructions

  function Sta(s: Cpu, mode: Mode): Cpu {
    var a := StoreAddress(s, mode, OperandOf(s));
    var s1 := StoreLong(IncPc(s, Length(mode)), a, s.c % 0x100);
    if M8(s) then s1 else StoreLong(s1, Next(mode, a), s.c / 0x100)
  }

  function Lda(s: Cpu, mode: Mode): Cpu {
    var a := LoadAddress(s, mode, OperandOf(s));
    var s1 := IncPc(s, Length(mode));
    if M8(s) then SetNZ(SetA(s1, Load(s.mem, a)), Load(s.mem, a), true)
    else
      var v := Load(s.mem, a) + 0x100 * Load(s.mem, Next(mode, a));
      SetNZ(s1.(c := v), v, false)
  }

  // ---------------------------------------------------------------- the round trip

  ghost predicate Written(s: Cpu, mode: Mode, a: nat) {
    var lo := StoreAddress(s, mode, OperandOf(s));
    a == lo || (!M8(s) && a == Next(mode, lo))
  }

  lemma StoreMeetsLoad(s: Cpu, mode: Mode, o: Operand)
    ensures LoadAddress(s, mode, o) == StoreAddress(s, mode, o)
  {
  }

  lemma NextIsAnother(mode: Mode, a: Addr)
    requires mode in {Direct, DirectX, StackRel} ==> a < 0x1_0000
    ensures Next(mode, a) != a
  {
  }

  /** STA writes one byte, or two with a long accumulator: the accumulator's, and no other byte. */
  lemma StaWrites(s: Cpu, mode: Mode)
    ensures var t := Sta(s, mode);
            var lo := StoreAddress(s, mode, OperandOf(s));
            && Load(t.mem, lo) == s.c % 0x100
            && (!M8(s) ==> Load(t.mem, Next(mode, lo)) == s.c / 0x100)
            && (forall a: Addr :: !Written(s, mode, a) ==> Load(t.mem, a) == Load(s.mem, a))
            && t == s.(pc := t.pc, mem := t.mem)
  {
    NextIsAnother(mode, StoreAddress(s, mode, OperandOf(s)));
  }

  /** An address depends on the registers, the operand and the pointer only. */
  lemma SameAddress(s: Cpu, t: Cpu, mode: Mode, o: Operand)
    requires t == s.(pc := t.pc, mem := t.mem)
    requires forall a: Addr :: InPointer(s, mode, o.p1, a) ==> Load(t.mem, a) == Load(s.mem, a)
    ensures StoreAddress(t, mode, o) == StoreAddress(s, mode, o)
  {
    if IsIndirect(mode) {
      SamePointer(s, t, mode, o.p1);
    }
    SameStoreAt(s, t, mode, o, PointerOf(s, mode, o.p1), PointerOf(t, mode, o.p1));
  }

  lemma SameStoreAt(s: Cpu, t: Cpu, mode: Mode, o: Operand, p: Ptr, q: Ptr)
    requires t == s.(pc := t.pc, mem := t.mem)
    requires IsIndirect(mode) ==> p.low == q.low && p.high == q.high
    requires IsLong(mode) ==> p.bank == q.bank
    ensures StoreAt(s, mode, o, p) == StoreAt(t, mode, o, q)
  {
    SameRegisters(s, t, mode, o, p);
    SameBytes(t, mode, o, p, q);
  }

  lemma SameRegisters(s: Cpu, t: Cpu, mode: Mode, o: Operand, p: Ptr)
    requires t == s.(pc := t.pc, mem := t.mem)
    ensures StoreAt(s, mode, o, p) == StoreAt(t, mode, o, p)
  {
  }

  lemma SameBytes(t: Cpu, mode: Mode, o: Operand, p: Ptr, q: Ptr)
    requires IsIndirect(mode) ==> p.low == q.low && p.high == q.high
    requires IsLong(mode) ==> p.bank == q.bank
    ensures StoreAt(t, mode, o, p) == StoreAt(t, mode, o, q)
  {
  }

  lemma SamePointer(s: Cpu, t: Cpu, mode: Mode, p1: byte)
    requires t == s.(pc := t.pc, mem := t.mem) && IsIndirect(mode)
    requires forall a: Addr :: InPointer(s, mode, p1, a) ==> Load(t.mem, a) == Load(s.mem, a)
    ensures Load(t.mem, PointerLow(t, mode, p1)) == Load(s.mem, PointerLow(s, mode, p1))
    ensures Load(t.mem, PointerHigh(t, mode, p1)) == Load(s.mem, PointerHigh(s, mode, p1))
    ensures IsLong(mode) ==> Load(t.mem, PointerBank(t, p1)) == Load(s.mem, PointerBank(s, p1))
  {
    assert InPointer(s, mode, p1, PointerLow(s, mode, p1));
    assert InPointer(s, mode, p1, PointerHigh(s, mode, p1));
    assert IsLong(mode) ==> InPointer(s, mode, p1, PointerBank(s, p1));
  }

  /** LDA, at any place `pc` with the same operand and in the same registers, gets back what STA has
      stored, provided the store did not hit the pointer. */
  lemma LdaAfterSta(s: Cpu, mode: Mode, pc: word)
    requires var t := Sta(s, mode).(pc := pc); OperandOf(t) == OperandOf(s)
    requires forall a: Addr :: InPointer(s, mode, OperandOf(s).p1, a) ==> !Written(s, mode, a)
    ensures var t := Sta(s, mode).(pc := pc);
            var r := Lda(t, mode);
            && r.c == s.c && r.mem == t.mem && r.pc == Low16(pc + Length(mode))
            && r == t.(pc := r.pc, fn := r.fn, fz := r.fz)
            && (Zero(r) <==> (if M8(s) then s.c % 0x100 == 0 else s.c == 0))
            && (Sign(r) <==> (if M8(s) then s.c % 0x100 >= 0x80 else s.c >= 0x8000))
  {
    var t := Sta(s, mode).(pc := pc);
    StaWrites(s, mode);
    SameAddress(s, t, mode, OperandOf(s));
    StoreMeetsLoad(t, mode, OperandOf(s));
    LoadBack(s, t, mode, StoreAddress(s, mode, OperandOf(s)));
  }

  lemma LoadBack(s: Cpu, t: Cpu, mode: Mode, lo: Addr)
    requires t == s.(pc := t.pc, mem := t.mem) && LoadAddress(t, mode, OperandOf(t)) == lo
    requires Load(t.mem, lo) == s.c % 0x100 && (!M8(s) ==> Load(t.mem, Next(mode, lo)) == s.c / 0x100)
    ensures var r := Lda(t, mode);
            && r.c == s.c && r.mem == t.mem && r.pc == Low16(t.pc + Length(mode))
            && r == t.(pc := r.pc, fn := r.fn, fz := r.fz)
            && (Zero(r) <==> (if M8(s) then s.c % 0x100 == 0 else s.c == 0))
            && (Sign(r) <==> (if M8(s) then s.c % 0x100 >= 0x80 else s.c >= 0x8000))
  {
    LoadedFrom(s, t, mode, lo);
    if M8(s) {
      ShortFlags(IncPc(t, Length(mode)), s.c);
    } else {
      LongFlags(IncPc(t, Length(mode)), s.c);
    }
  }

  lemma LoadedFrom(s: Cpu, t: Cpu, mode: Mode, lo: Addr)
    requires t == s.(pc := t.pc, mem := t.mem) && LoadAddress(t, mode, OperandOf(t)) == lo
    requires Load(t.mem, lo) == s.c % 0x100 && (!M8(s) ==> Load(t.mem, Next(mode, lo)) == s.c / 0x100)
    ensures var t1 := IncPc(t, Length(mode));
            Lda(t, mode) == if M8(s) then SetNZ(SetA(t1, s.c % 0x100), s.c % 0x100, true)
                            else SetNZ(t1.(c := s.c), s.c, false)
  {
  }

  lemma ShortFlags(t: Cpu, c: word)
    requires t.c == c
    ensures var r := SetNZ(SetA(t, c % 0x100), c % 0x100, true);
            && r == t.(fn := r.fn, fz := r.fz)
            && (Zero(r) <==> c % 0x100 == 0) && (Sign(r) <==> c % 0x100 >= 0x80)
  {
  }

  lemma LongFlags(t: Cpu, c: word)
    requires t.c == c
    ensures var r := SetNZ(t.(c := c), c, false);
            && r == t.(fn := r.fn, fz := r.fz)
            && (Zero(r) <==> c == 0) && (Sign(r) <==> c >= 0x8000)
  {
  }

  // ---------------------------------------------------------------- where it wraps

  /** In emulation mode with an aligned direct page, the indexed byte and the pointers of the 6502's
      own modes stay in that page; those of the 65816's long modes do not have to. */
  lemma DirectPageConfined(s: Cpu, mode: Mode, p1: byte)
    requires PageWraps(s) && s.x < 0x100 && mode in {Indirect, IndirectX, IndirectY}
    ensures s.dpr <= DirectIndexed(s, p1) < s.dpr + 0x100
    ensures s.dpr <= PointerLow(s, mode, p1) < s.dpr + 0x100
    ensures s.dpr <= PointerHigh(s, mode, p1) < s.dpr + 0x100
    ensures p1 == 0xff ==>
              PointerHigh(s, IndirectLong, p1) == Low16(s.dpr + 0x100) && PointerBank(s, p1) == Low16(s.dpr + 0x101)
  {
  }
}
