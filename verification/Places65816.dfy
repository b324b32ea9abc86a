/**
 The bytes that STA writes and LDA reads in each addressing mode, as bank and offset in terms of the registers, the
 bytes behind the opcode and the bytes of the pointer. `DBR` addresses and long ones run on into the next bank; those
 in the direct page and on the stack stay in bank zero.
 */
module Places65816 {
  import opened Addressing65816
  import opened Basics
  import opened Effects65816
  import opened Wdc65816

  // ---------------------------------------------------------------- statements

  /** STA has written the accumulator's byte to `low` and, if it is long, its high byte to `high`, no other byte, and no
      register but the program counter, which is `size` further. */
  ghost predicate Stores(s: Cpu, t: Cpu, low: nat, high: nat, size: nat) {
    && low < SPACE && high < SPACE && low != high
    && t == s.(pc := PcAfter(s, size), mem := t.mem)
    && t.mem[low] == s.c % 0x100
    && (s.emul || s.p.m || t.mem[high] == s.c / 0x100)
    && forall a: Addr :: a != low && (s.emul || s.p.m || a != high) ==> t.mem[a] == s.mem[a]
  }

  /** LDA has taken the byte at `low`, keeping the high byte of C, or the bytes at `low` and `high`. */
  ghost predicate Loads(s: Cpu, t: Cpu, low: nat, high: nat, size: nat) {
    && low < SPACE && high < SPACE
    && t == s.(pc := PcAfter(s, size), c := t.c, fn := t.fn, fz := t.fz)
    && (if s.emul || s.p.m then t.c == s.c / 0x100 * 0x100 + s.mem[low] && Flagged(t, s.mem[low], true)
        else t.c == s.mem[low] as int + 0x100 * s.mem[high] as int && Flagged(t, t.c, false))
  }

  /** Both instructions, at an address in bank zero, where the second byte wraps. */
  ghost predicate InBankZero(s: Cpu, mode: Mode, a: nat, size: nat) {
    && a < 0x1_0000
    && Stores(s, Sta(s, mode), a, Low16(a + 1), size) && Loads(s, Lda(s, mode), a, Low16(a + 1), size)
  }

  /** Both instructions, at an address anywhere, which wraps at the end of memory only. */
  ghost predicate Anywhere(s: Cpu, mode: Mode, a: nat, size: nat) {
    var low, high := a % 0x100_0000, (a + 1) % 0x100_0000;
    Stores(s, Sta(s, mode), low, high, size) && Loads(s, Lda(s, mode), low, high, size)
  }

  // ---------------------------------------------------------------- from the address to the bytes

  lemma StoresThere(s: Cpu, mode: Mode, a: Addr, size: nat)
    requires a == StoreAddress(s, mode, OperandOf(s)) && size == Length(mode)
    requires mode in {Direct, DirectX, StackRel} ==> a < 0x1_0000
    ensures Stores(s, Sta(s, mode), a, Next(mode, a), size)
  {
    StaWrites(s, mode);
    NextIsAnother(mode, a);
    assert forall x: Addr :: Written(s, mode, x) ==> x == a || (!M8(s) && x == Next(mode, a));
  }

  lemma LoadsThere(s: Cpu, mode: Mode, a: Addr, size: nat)
    requires a == LoadAddress(s, mode, OperandOf(s)) && size == Length(mode)
    ensures Loads(s, Lda(s, mode), a, Next(mode, a), size)
  {
    LoadsByte(s, IncPc(s, size), a, Next(mode, a), size);
    LoadsWord(s, IncPc(s, size), a, Next(mode, a), size);
    LoadIs(s, mode, a, Next(mode, a), size);
  }

  lemma LoadIs(s: Cpu, mode: Mode, low: Addr, high: Addr, size: nat)
    requires low == LoadAddress(s, mode, OperandOf(s)) && size == Length(mode) && high == Next(mode, low)
    ensures Lda(s, mode) == if s.emul || s.p.m then SetNZ(SetA(IncPc(s, size), s.mem[low]), s.mem[low], true)
                            else WordLoaded(IncPc(s, size), s.mem[low] as int + 0x100 * s.mem[high] as int)
  {
  }

  function WordLoaded(s: Cpu, v: word): Cpu {
    SetNZ(s.(c := v), v, false)
  }

  lemma LoadsByte(s: Cpu, s1: Cpu, low: Addr, high: Addr, size: nat)
    requires s1 == s.(pc := PcAfter(s, size))
    ensures s.emul || s.p.m ==> Loads(s, SetNZ(SetA(s1, s.mem[low]), s.mem[low], true), low, high, size)
  {
    FlagsOfResult(SetA(s1, s.mem[low]), s.mem[low], true);
  }

  lemma LoadsWord(s: Cpu, s1: Cpu, low: Addr, high: Addr, size: nat)
    requires s1 == s.(pc := PcAfter(s, size))
    ensures !(s.emul || s.p.m) ==>
              Loads(s, WordLoaded(s1, s.mem[low] as int + 0x100 * s.mem[high] as int), low, high, size)
  {
    var v: word := s.mem[low] as int + 0x100 * s.mem[high] as int;
    FlagsOfResult(s1.(c := v), v, false);
  }

  lemma Space(v: nat)
    ensures InSpace(v) == v % 0x100_0000
  {
  }

  /** The address, before it wraps at the end of memory, that the mode names. */
  predicate Names(s: Cpu, mode: Mode, a: nat) {
    a % 0x100_0000 == StoreAddress(s, mode, OperandOf(s))
  }

  lemma There(s: Cpu, mode: Mode, a: nat, size: nat)
    requires size == Length(mode) && mode !in {Direct, DirectX, StackRel}
    requires Names(s, mode, a)
    ensures Anywhere(s, mode, a, size)
  {
    var low := a % 0x100_0000;
    StoreMeetsLoad(s, mode, OperandOf(s));
    StoresThere(s, mode, low, size);
    LoadsThere(s, mode, low, size);
    Space(low + 1);
    NextInSpace(a);
  }

  lemma NextInSpace(a: nat)
    ensures (a % 0x100_0000 + 1) % 0x100_0000 == (a + 1) % 0x100_0000
  {
  }

  lemma ThereInBankZero(s: Cpu, mode: Mode, a: word, size: nat)
    requires size == Length(mode) && mode in {Direct, DirectX, StackRel}
    requires a == StoreAddress(s, mode, OperandOf(s))
    ensures InBankZero(s, mode, a, size)
  {
    StoreMeetsLoad(s, mode, OperandOf(s));
    StoresThere(s, mode, a, size);
    LoadsThere(s, mode, a, size);
  }

  lemma OperandIs(s: Cpu)
    ensures OperandOf(s) == Operand(Behind(s, s.mem, 1), Behind(s, s.mem, 2), Behind(s, s.mem, 3))
  {
    FetchIsBehind(s, 1);
    FetchIsBehind(s, 2);
    FetchIsBehind(s, 3);
  }

  // ---------------------------------------------------------------- the modes

  /** The address of the pointer's high byte in the direct page, `k` from the register: in emulation mode with an
      aligned direct page it wraps in the page, like everything there. */
  function InPage(s: Cpu, k: nat): word
    requires k < 0x2_0000
  {
    if s.emul && s.dpr % 0x100 == 0 then s.dpr + Low8(k) else Low16(s.dpr + k)
  }

  /** The pointer in bank zero at `a`, its high byte at `b` */
  function PointerAt(s: Cpu, a: word, b: word): word {
    s.mem[a] as int + 0x100 * s.mem[b] as int
  }

  lemma DirectAddresses(s: Cpu, o: Operand)
    ensures StoreAddress(s, Direct, o) == Low16(s.dpr + o.p1)
    ensures StoreAddress(s, StackRel, o) == Low16(s.sp + o.p1)
    ensures StoreAddress(s, DirectX, o) == InPage(s, o.p1 + s.x)
  {
  }

  lemma AbsoluteNames(s: Cpu)
    ensures Names(s, Absolute, s.dbr * 0x1_0000 + OperandWord(s))
    ensures Names(s, AbsoluteX, s.dbr * 0x1_0000 + OperandWord(s) + s.x)
    ensures Names(s, AbsoluteY, s.dbr * 0x1_0000 + OperandWord(s) + s.y)
  {
    OperandIs(s);
  }

  lemma LongNames(s: Cpu)
    ensures Names(s, Long, Behind(s, s.mem, 3) as nat * 0x1_0000 + OperandWord(s))
    ensures Names(s, LongX, Behind(s, s.mem, 3) as nat * 0x1_0000 + OperandWord(s) + s.x)
  {
    OperandIs(s);
  }

  lemma IndirectPointers(s: Cpu, b: byte)
    ensures Word(PointerOf(s, Indirect, b)) == PointerAt(s, Low16(s.dpr + b), InPage(s, b + 1))
    ensures Word(PointerOf(s, IndirectY, b)) == PointerAt(s, Low16(s.dpr + b), InPage(s, b + 1))
    ensures Word(PointerOf(s, IndirectX, b)) == PointerAt(s, InPage(s, b + s.x), InPage(s, b + s.x + 1))
    ensures Word(PointerOf(s, StackRelY, b)) == PointerAt(s, Low16(s.sp + b), Low16(s.sp + b + 1))
  {
  }

  lemma LongPointers(s: Cpu, b: byte)
    ensures Word(PointerOf(s, IndirectLong, b)) == PointerAt(s, Low16(s.dpr + b), Low16(s.dpr + b + 1))
    ensures Word(PointerOf(s, IndirectLongY, b)) == PointerAt(s, Low16(s.dpr + b), Low16(s.dpr + b + 1))
    ensures PointerOf(s, IndirectLong, b).bank == s.mem[Low16(s.dpr + b + 2)]
    ensures PointerOf(s, IndirectLongY, b).bank == s.mem[Low16(s.dpr + b + 2)]
  {
  }

  /** What a mode with a pointer names, by the pointer */
  lemma PointerNames(s: Cpu, mode: Mode, base: nat)
    requires IsIndirect(mode)
    requires var p := PointerOf(s, mode, Behind(s, s.mem, 1));
             base == Word(p) + 0x1_0000 * (if IsLong(mode) then p.bank else s.dbr)
    ensures Names(s, mode, if mode in {IndirectY, IndirectLongY, StackRelY} then base + s.y else base)
  {
    OperandIs(s);
    PointerLeads(s, mode, OperandOf(s), PointerOf(s, mode, Behind(s, s.mem, 1)), base);
  }

  lemma PointerLeads(s: Cpu, mode: Mode, o: Operand, p: Ptr, base: nat)
    requires IsIndirect(mode) && base == Word(p) + 0x1_0000 * (if IsLong(mode) then p.bank else s.dbr)
    ensures var a := if mode in {IndirectY, IndirectLongY, StackRelY} then base + s.y else base;
            a % 0x100_0000 == StoreAt(s, mode, o, p)
  {
    Space(base);
    Space(base + s.y);
  }

  /** `d`, `d,X` and `d,S`: bank zero, from the direct page register or the stack pointer on. */
  lemma DirectPlaces(s: Cpu)
    ensures InBankZero(s, Direct, Low16(s.dpr + Behind(s, s.mem, 1)), 2)
    ensures InBankZero(s, StackRel, Low16(s.sp + Behind(s, s.mem, 1)), 2)
    ensures InBankZero(s, DirectX, InPage(s, Behind(s, s.mem, 1) + s.x), 2)
  {
    OperandIs(s);
    DirectAddresses(s, OperandOf(s));
    ThereInBankZero(s, Direct, Low16(s.dpr + Behind(s, s.mem, 1)), 2);
    ThereInBankZero(s, StackRel, Low16(s.sp + Behind(s, s.mem, 1)), 2);
    ThereInBankZero(s, DirectX, InPage(s, Behind(s, s.mem, 1) + s.x), 2);
  }

  /** `a`: the word behind the opcode in the data bank. */
  lemma AbsolutePlace(s: Cpu)
    ensures Anywhere(s, Absolute, s.dbr * 0x1_0000 + OperandWord(s), 3)
  {
    AbsoluteNames(s);
    There(s, Absolute, s.dbr * 0x1_0000 + OperandWord(s), 3);
  }

  /** `a,X`: plus X, carrying into the next bank. */
  lemma AbsoluteXPlace(s: Cpu)
    ensures Anywhere(s, AbsoluteX, s.dbr * 0x1_0000 + OperandWord(s) + s.x, 3)
  {
    AbsoluteNames(s);
    There(s, AbsoluteX, s.dbr * 0x1_0000 + OperandWord(s) + s.x, 3);
  }

  /** `a,Y`: plus Y, likewise. */
  lemma AbsoluteYPlace(s: Cpu)
    ensures Anywhere(s, AbsoluteY, s.dbr * 0x1_0000 + OperandWord(s) + s.y, 3)
  {
    AbsoluteNames(s);
    There(s, AbsoluteY, s.dbr * 0x1_0000 + OperandWord(s) + s.y, 3);
  }

  /** `al`: the three bytes behind the opcode, the last one the bank. */
  lemma LongPlace(s: Cpu)
    ensures Anywhere(s, Long, Behind(s, s.mem, 3) as nat * 0x1_0000 + OperandWord(s), 4)
  {
    LongNames(s);
    There(s, Long, Behind(s, s.mem, 3) as nat * 0x1_0000 + OperandWord(s), 4);
  }

  /** `al,X`: X further. */
  lemma LongXPlace(s: Cpu)
    ensures Anywhere(s, LongX, Behind(s, s.mem, 3) as nat * 0x1_0000 + OperandWord(s) + s.x, 4)
  {
    LongNames(s);
    There(s, LongX, Behind(s, s.mem, 3) as nat * 0x1_0000 + OperandWord(s) + s.x, 4);
  }

  /** The pointer of `(d)` and `(d),Y`, in the direct page */
  function DirectPointer(s: Cpu): word {
    PointerAt(s, Low16(s.dpr + Behind(s, s.mem, 1)), InPage(s, Behind(s, s.mem, 1) + 1))
  }

  /** The pointer of `(d,X)`, X further in the direct page */
  function IndexedPointer(s: Cpu): word {
    PointerAt(s, InPage(s, Behind(s, s.mem, 1) + s.x), InPage(s, Behind(s, s.mem, 1) + s.x + 1))
  }

  /** The pointer of `(d,S),Y`, on the stack */
  function StackPointer(s: Cpu): word {
    PointerAt(s, Low16(s.sp + Behind(s, s.mem, 1)), Low16(s.sp + Behind(s, s.mem, 1) + 1))
  }

  /** The pointer of `[d]` and `[d],Y`: three bytes in the direct page, never confined to it */
  function LongPointer(s: Cpu): nat {
    PointerAt(s, Low16(s.dpr + Behind(s, s.mem, 1)), Low16(s.dpr + Behind(s, s.mem, 1) + 1))
    + 0x1_0000 * s.mem[Low16(s.dpr + Behind(s, s.mem, 1) + 2)] as nat
  }

  lemma IndirectNames(s: Cpu)
    ensures Names(s, Indirect, s.dbr * 0x1_0000 + DirectPointer(s))
  {
    IndirectPointerIs(s);
    PointerNames(s, Indirect, s.dbr * 0x1_0000 + DirectPointer(s));
  }

  lemma IndirectPointerIs(s: Cpu)
    ensures Word(PointerOf(s, Indirect, Behind(s, s.mem, 1))) == DirectPointer(s)
  {
    IndirectPointers(s, Behind(s, s.mem, 1));
  }

  lemma IndirectYNames(s: Cpu)
    ensures Names(s, IndirectY, s.dbr * 0x1_0000 + DirectPointer(s) + s.y)
  {
    IndirectYPointerIs(s);
    PointerNames(s, IndirectY, s.dbr * 0x1_0000 + DirectPointer(s));
  }

  lemma IndirectYPointerIs(s: Cpu)
    ensures Word(PointerOf(s, IndirectY, Behind(s, s.mem, 1))) == DirectPointer(s)
  {
    IndirectPointers(s, Behind(s, s.mem, 1));
  }

  lemma IndirectXNames(s: Cpu)
    ensures Names(s, IndirectX, s.dbr * 0x1_0000 + IndexedPointer(s))
  {
    IndirectXPointerIs(s);
    PointerNames(s, IndirectX, s.dbr * 0x1_0000 + IndexedPointer(s));
  }

  lemma IndirectXPointerIs(s: Cpu)
    ensures Word(PointerOf(s, IndirectX, Behind(s, s.mem, 1))) == IndexedPointer(s)
  {
    IndirectPointers(s, Behind(s, s.mem, 1));
  }

  lemma StackIndirectNames(s: Cpu)
    ensures Names(s, StackRelY, s.dbr * 0x1_0000 + StackPointer(s) + s.y)
  {
    StackIndirectPointerIs(s);
    PointerNames(s, StackRelY, s.dbr * 0x1_0000 + StackPointer(s));
  }

  lemma StackIndirectPointerIs(s: Cpu)
    ensures Word(PointerOf(s, StackRelY, Behind(s, s.mem, 1))) == StackPointer(s)
  {
    IndirectPointers(s, Behind(s, s.mem, 1));
  }

  lemma IndirectLongNames(s: Cpu)
    ensures Names(s, IndirectLong, LongPointer(s))
  {
    LongPointers(s, Behind(s, s.mem, 1));
    PointerNames(s, IndirectLong, LongPointer(s));
  }

  lemma IndirectLongYNames(s: Cpu)
    ensures Names(s, IndirectLongY, LongPointer(s) + s.y)
  {
    LongPointers(s, Behind(s, s.mem, 1));
    PointerNames(s, IndirectLongY, LongPointer(s));
  }

  /** `(d)`: what the pointer points at in the data bank. */
  lemma IndirectPlace(s: Cpu)
    ensures Anywhere(s, Indirect, s.dbr * 0x1_0000 + DirectPointer(s), 2)
  {
    IndirectNames(s);
    There(s, Indirect, s.dbr * 0x1_0000 + DirectPointer(s), 2);
  }

  /** `(d),Y`: Y further. */
  lemma IndirectYPlace(s: Cpu)
    ensures Anywhere(s, IndirectY, s.dbr * 0x1_0000 + DirectPointer(s) + s.y, 2)
  {
    IndirectYNames(s);
    There(s, IndirectY, s.dbr * 0x1_0000 + DirectPointer(s) + s.y, 2);
  }

  /** `(d,X)`: X goes into the place of the pointer. */
  lemma IndirectXPlace(s: Cpu)
    ensures Anywhere(s, IndirectX, s.dbr * 0x1_0000 + IndexedPointer(s), 2)
  {
    IndirectXNames(s);
    There(s, IndirectX, s.dbr * 0x1_0000 + IndexedPointer(s), 2);
  }

  /** `(d,S),Y`: Y further than what the pointer on the stack points at in the data bank. */
  lemma StackIndirectPlace(s: Cpu)
    ensures Anywhere(s, StackRelY, s.dbr * 0x1_0000 + StackPointer(s) + s.y, 2)
  {
    StackIndirectNames(s);
    There(s, StackRelY, s.dbr * 0x1_0000 + StackPointer(s) + s.y, 2);
  }

  /** `[d]`: what the long pointer points at. */
  lemma IndirectLongPlace(s: Cpu)
    ensures Anywhere(s, IndirectLong, LongPointer(s), 2)
  {
    IndirectLongNames(s);
    There(s, IndirectLong, LongPointer(s), 2);
  }

  /** `[d],Y`: Y further. */
  lemma IndirectLongYPlace(s: Cpu)
    ensures Anywhere(s, IndirectLongY, LongPointer(s) + s.y, 2)
  {
    IndirectLongYNames(s);
    There(s, IndirectLongY, LongPointer(s) + s.y, 2);
  }
}
