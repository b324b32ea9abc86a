/**
 The 65816 instructions that use the stack or change the mode: subroutine calls and returns, pushes,
 pulls, and the instructions that load the status register or switch between the modes. Some of them
 step the stack pointer without confining it to page one, and confine it only at their end; what
 that does to pairs of them in emulation mode is worked out below.
 */
module Stack65816 {
  import opened Basics
  import opened StatusRegister
  import opened Wdc65816

  // ---------------------------------------------------------------- pushing and pulling words

  /** High byte first, each push confined. */
  function PushWord(s: Cpu, v: int): Cpu {
    Push(Push(s, v / 0x100), v)
  }

  /** A push that is not confined to page one. */
  function PushOpen(s: Cpu, v: int): Cpu {
    StoreLong(s, s.sp, v).(sp := Low16(s.sp - 1))
  }

  /** High byte first, the first push not confined. */
  function PushWordOpen(s: Cpu, v: int): Cpu {
    Push(PushOpen(s, v / 0x100), v)
  }

  function PulledWord(s: Cpu): word {
    Pulled(s) + 0x100 * Pulled(PullSp(s))
  }

  function PullWordSp(s: Cpu): Cpu {
    PullSp(PullSp(s))
  }

  /** The byte `k` above the stack pointer, unconfined. */
  function OpenByte(s: Cpu, k: nat): byte {
    Load(s.mem, Low16(s.sp + k))
  }

  /** The stack pointer `k` up, confined only now. */
  function OpenUp(s: Cpu, k: nat): Cpu {
    var sp := Low16(s.sp + k);
    s.(sp := if s.emul then 0x100 + sp % 0x100 else sp)
  }

  // ---------------------------------------------------------------- calls and returns

  function Jsr(s: Cpu): Cpu {
    PushWord(IncPc(s, 2), Low16(s.pc + 2)).(pc := Fetch(s, Low16(s.pc + 1)) + 0x100 * Fetch(s, Low16(s.pc + 2)))
  }

  /** `JSR_IND_X`: the high byte of the table's address is read after the pushes. */
  function JsrIndX(s: Cpu): Cpu {
    var s1 := PushWordOpen(IncPc(s, 2), Low16(s.pc + 2));
    var ea := Low16(Fetch(s, Low16(s.pc + 1)) + 0x100 * Fetch(s1, s1.pc) + s.x);
    s1.(pc := Fetch(s1, ea) + 0x100 * Fetch(s1, Low16(ea + 1)))
  }

  /** `JSR_LONG`: the new bank is read after the old one has been pushed. */
  function Jsl(s: Cpu): Cpu {
    var s1 := PushOpen(IncPc(s, 3), s.pbr);
    var s2 := s1.(pbr := Fetch(s1, s1.pc));
    PushWordOpen(s2, s2.pc).(pc := Fetch(s, Low16(s.pc + 1)) + 0x100 * Fetch(s, Low16(s.pc + 2)))
  }

  function Rts(s: Cpu): Cpu {
    PullWordSp(s).(pc := Low16(PulledWord(s) + 1))
  }

  function Rtl(s: Cpu): Cpu {
    OpenUp(s, 3).(pc := Low16(OpenByte(s, 1) + 0x100 * OpenByte(s, 2) + 1), pbr := OpenByte(s, 3))
  }

  // ---------------------------------------------------------------- pushes

  function Pea(s: Cpu): Cpu {
    PushWordOpen(IncPc(s, 3), Fetch(s, Low16(s.pc + 1)) + 0x100 * Fetch(s, Low16(s.pc + 2)))
  }

  function Pei(s: Cpu): Cpu {
    var ea := Fetch(s, Low16(s.pc + 1)) + s.dpr;
    PushWordOpen(IncPc(s, 2), Load(s.mem, Low16(ea)) + 0x100 * Load(s.mem, Low16(ea + 1)))
  }

  function Per(s: Cpu): Cpu {
    var s1 := IncPc(s, 3);
    PushWordOpen(s1, s1.pc + Fetch(s, Low16(s.pc + 1)) + 0x100 * Fetch(s, Low16(s.pc + 2)))
  }

  function Phd(s: Cpu): Cpu {
    PushWordOpen(IncPc(s, 1), s.dpr)
  }

  function Pha(s: Cpu): Cpu {
    if M8(s) then Push(IncPc(s, 1), A(s)) else PushWord(IncPc(s, 1), s.c)
  }

  function PushIndex(s: Cpu, r: word): Cpu {
    if X8(s) then Push(IncPc(s, 1), r) else PushWord(IncPc(s, 1), r)
  }

  /** `PHB`, `PHK` */
  function PushByte(s: Cpu, b: byte): Cpu {
    Push(IncPc(s, 1), b)
  }

  /** `PHP` pushes the B bit set in emulation mode. */
  function PushedStatus(s: Cpu): P {
    if s.emul then StatusEmul(s).(x := true) else Status(s)
  }

  function Php(s: Cpu): Cpu {
    Push(IncPc(s, 1), ByteOf(PushedStatus(s)))
  }

  // ---------------------------------------------------------------- pulls

  function Pla(s: Cpu): Cpu {
    if M8(s) then SetNZ(SetA(PullSp(IncPc(s, 1)), Pulled(s)), Pulled(s), true)
    else SetNZ(PullWordSp(IncPc(s, 1)).(c := PulledWord(s)), PulledWord(s), false)
  }

  function PulledIndex(s: Cpu): word {
    if X8(s) then Pulled(s) else PulledWord(s)
  }

  function PullIndexSp(s: Cpu): Cpu {
    SetNZ(if X8(s) then PullSp(IncPc(s, 1)) else PullWordSp(IncPc(s, 1)), PulledIndex(s), X8(s))
  }

  function Plx(s: Cpu): Cpu {
    PullIndexSp(s).(x := PulledIndex(s))
  }

  function Ply(s: Cpu): Cpu {
    PullIndexSp(s).(y := PulledIndex(s))
  }

  function Plb(s: Cpu): Cpu {
    SetNZ(PullSp(IncPc(s, 1)).(dbr := Pulled(s)), Pulled(s), true)
  }

  function Pld(s: Cpu): Cpu {
    var d := OpenByte(s, 1) + 0x100 * OpenByte(s, 2);
    SetNZ(OpenUp(IncPc(s, 1), 2).(dpr := d), d, false)
  }

  function Plp(s: Cpu): Cpu {
    Narrow(SetStatus(PullSp(IncPc(s, 1)), Pulled(s)))
  }

  // ---------------------------------------------------------------- mode switches

  /** `REPSEP`: the flags named in the operand become `v`. M and X can only change in native mode. */
  function RepSep(s: Cpu, v: bool): Cpu {
    var f := FlagsOf(Fetch(s, Low16(s.pc + 1)));
    LowFlags(IndexFlag(HighFlags(IncPc(s, 2), f, v), f, v), f, v)
  }

  function HighFlags(s: Cpu, f: P, v: bool): Cpu {
    s.(p := HighBits(s.p, f, v, s.emul), fn := if f.n then (if v then 0x80 else 0) else s.fn)
  }

  function HighBits(p: P, f: P, v: bool, emul: bool): P {
    var p1 := if f.v then p.(v := v) else p;
    if f.m && !emul then p1.(m := v) else p1
  }

  function IndexFlag(s: Cpu, f: P, v: bool): Cpu {
    if f.x && !s.emul then
      var s1 := s.(p := s.p.(x := v));
      if v then s1.(x := Low8(s.x), y := Low8(s.y)) else s1
    else s
  }

  function LowFlags(s: Cpu, f: P, v: bool): Cpu {
    s.(p := LowBits(s.p, f, v), fz := if f.z then (if v then 0 else 1) else s.fz)
  }

  function LowBits(p: P, f: P, v: bool): P {
    var p1 := if f.d then p.(d := v) else p;
    var p2 := if f.i then p1.(i := v) else p1;
    if f.c then p2.(c := v) else p2
  }

  /** `XCE`: swaps the carry and the mode. Going native sets M and X, going back narrows the index
      registers and confines the stack pointer. */
  function Xce(s: Cpu): Cpu {
    var s1 := IncPc(s, 1);
    if s.p.c == s.emul then s1
    else if s.p.c then
      s1.(emul := true, p := s.p.(c := false, x := false), x := Low8(s.x), y := Low8(s.y),
          sp := 0x100 + s.sp % 0x100)
    else s1.(emul := false, p := s.p.(c := true, m := true, x := true))
  }

  /** `RES`, apart from what it resets outside the processor */
  function Reset(s: Cpu): Cpu {
    LoadIntAddr(
      s.(p := s.p.(x := false, i := true, d := false), emul := true, x := Low8(s.x), y := Low8(s.y),
         sp := Below(true, Below(true, Below(true, 0x100 + s.sp % 0x100))), dpr := 0, dbr := 0, pbr := 0),
      0xfffc)
  }

  // ---------------------------------------------------------------- pairs

  /** A callee started in state `e` is about to return in state `h`: same mode, balanced stack, the
      bytes that the caller pushed at `frame` untouched. */
  ghost predicate Callee(frame: seq<Addr>, e: Cpu, h: Cpu) {
    && h.emul == e.emul && h.sp == e.sp
    && forall k :: 0 <= k < |frame| ==> Load(h.mem, frame[k]) == Load(e.mem, frame[k])
  }

  /** The program goes on at the next instruction, in the same bank, with the stack as it was. */
  predicate Back(s: Cpu, size: nat, r: Cpu) {
    r.pc == Low16(s.pc + size) && r.pbr == s.pbr && r.sp == s.sp
  }

  /** In emulation mode, with the stack pointer in page one. */
  predicate SpOk(s: Cpu) {
    s.emul ==> 0x100 <= s.sp < 0x200
  }

  function JsrFrame(s: Cpu): seq<Addr> {
    [s.sp, SpDown(s)]
  }

  /** RTS after JSR comes back to the instruction behind the call, also when the stack wraps. */
  lemma JsrRts(s: Cpu, h: Cpu)
    requires SpOk(s) && Callee(JsrFrame(s), Jsr(s), h) && h.pbr == s.pbr
    ensures Back(s, 3, Rts(h))
  {
    var f := JsrFrame(s);
    BelowAbove(s.emul, s.sp);
    BelowAbove(s.emul, SpDown(s));
    LowIsRemainder(Low16(s.pc + 2));
    assert Load(h.mem, f[0]) == Low16(s.pc + 2) / 0x100;
    assert Load(h.mem, f[1]) == Low16(s.pc + 2) % 0x100;
  }

  /** The bytes below `sp` that an unconfined sequence of pushes writes. */
  function OpenFrame(sp: word, n: nat): (f: seq<Addr>)
    ensures |f| == n && forall k :: 0 <= k < n ==> f[k] == Low16(sp - k)
  {
    if n == 0 then [] else OpenFrame(sp, n - 1) + [Low16(sp - (n - 1))]
  }

  /** The stack pointer `n` bytes down, confined at the end. */
  function OpenDown(emul: bool, sp: word, n: nat): word {
    if emul then 0x100 + Low16(sp - n) % 0x100 else Low16(sp - n)
  }

  /** The way back up meets the addresses of the way down when both stay in page one. */
  lemma OpenPath(emul: bool, sp: word, k: nat, n: nat)
    requires k < n <= 3 && (emul ==> 0x100 + n <= sp < 0x200)
    ensures Low16(OpenDown(emul, sp, n) + n - k) == Low16(sp - k)
    ensures emul ==> OpenDown(emul, sp, n) + n == sp
  {
  }

  /** Two pushes that only leave page one with the last step end where confined ones would. */
  lemma ConfinedDown(emul: bool, sp: word)
    requires emul ==> 0x101 <= sp < 0x200
    ensures Low16(sp - 1) == Below(emul, sp) && OpenDown(emul, sp, 2) == Below(emul, Below(emul, sp))
  {
  }

  /** What a long call leaves on the stack: three bytes below `sp`, even where that leaves page one. */
  lemma JslFrame(s: Cpu)
    ensures var e := Jsl(s);
            && e.emul == s.emul
            && e.sp == OpenDown(s.emul, s.sp, 3)
            && Load(e.mem, s.sp) == s.pbr
            && Load(e.mem, Low16(s.sp - 1)) == Low16(s.pc + 3) / 0x100
            && Load(e.mem, Low16(s.sp - 2)) == Low16(s.pc + 3) % 0x100
  {
    LowIsRemainder(Low16(s.pc + 3));
  }

  /** RTL finds the three bytes where JSL has left them. */
  lemma JslSaved(s: Cpu, h: Cpu)
    requires (s.emul ==> 0x103 <= s.sp < 0x200) && Callee(OpenFrame(s.sp, 3), Jsl(s), h)
    ensures OpenByte(h, 3) == s.pbr && OpenByte(h, 2) == Low16(s.pc + 3) / 0x100
    ensures OpenByte(h, 1) == Low16(s.pc + 3) % 0x100
  {
    JslFrame(s);
    OpenPath(s.emul, s.sp, 0, 3);
    OpenPath(s.emul, s.sp, 1, 3);
    OpenPath(s.emul, s.sp, 2, 3);
    var f := OpenFrame(s.sp, 3);
    assert Load(h.mem, f[0]) == s.pbr;
    assert Load(h.mem, f[1]) == Low16(s.pc + 3) / 0x100;
    assert Load(h.mem, f[2]) == Low16(s.pc + 3) % 0x100;
  }

  lemma JslRtl(s: Cpu, h: Cpu)
    requires (s.emul ==> 0x103 <= s.sp < 0x200) && Callee(OpenFrame(s.sp, 3), Jsl(s), h)
    ensures Back(s, 4, Rtl(h))
  {
    JslSaved(s, h);
    JslFrame(s);
    OpenPath(s.emul, s.sp, 0, 3);
  }

  /** A callee that changes a byte outside the frame. */
  lemma ChangedElsewhere(frame: seq<Addr>, e: Cpu, a: Addr, v: byte)
    requires forall k :: 0 <= k < |frame| ==> frame[k] != a
    ensures Callee(frame, e, e.(mem := Write(e.mem, a, v)))
  {
  }

  /** JSL and RTL are a pair exactly when the three pushes stay in page one: in emulation mode, from
      0x100 to 0x102, RTL reads other bytes than JSL wrote. */
  lemma LongCallReturns(s: Cpu)
    requires SpOk(s)
    ensures (forall h: Cpu :: Callee(OpenFrame(s.sp, 3), Jsl(s), h) ==> Back(s, 4, Rtl(h)))
            <==> (s.emul ==> s.sp >= 0x103)
  {
    if s.emul && s.sp < 0x103 {
      JslFrame(s);
      var e := Jsl(s);
      var v: byte := if s.pbr == 0 then 1 else 0;
      ChangedElsewhere(OpenFrame(s.sp, 3), e, s.sp + 0x100, v);
      var h := e.(mem := Write(e.mem, s.sp + 0x100, v));
      assert Rtl(h).pbr == v;
    } else {
      forall h: Cpu | Callee(OpenFrame(s.sp, 3), Jsl(s), h)
        ensures Back(s, 4, Rtl(h))
      {
        JslRtl(s, h);
      }
    }
  }

  lemma JsrIndXFrame(s: Cpu)
    ensures var e := JsrIndX(s);
            && e.emul == s.emul && e.pbr == s.pbr
            && e.sp == OpenDown(s.emul, s.sp, 2)
            && Load(e.mem, s.sp) == Low16(s.pc + 2) / 0x100
            && Load(e.mem, Low16(s.sp - 1)) == Low16(s.pc + 2) % 0x100
  {
    LowIsRemainder(Low16(s.pc + 2));
  }

  lemma JsrIndXRts(s: Cpu, h: Cpu)
    requires s.emul ==> 0x101 <= s.sp < 0x200
    requires Callee(OpenFrame(s.sp, 2), JsrIndX(s), h) && h.pbr == s.pbr
    ensures Back(s, 3, Rts(h))
  {
    JsrIndXFrame(s);
    ConfinedDown(s.emul, s.sp);
    BelowAbove(s.emul, s.sp);
    BelowAbove(s.emul, SpDown(s));
    var f := OpenFrame(s.sp, 2);
    assert Load(h.mem, f[0]) == Low16(s.pc + 2) / 0x100;
    assert Load(h.mem, f[1]) == Low16(s.pc + 2) % 0x100;
  }

  /** JSR (a,X) pushes its first byte unconfined, RTS pulls confined: a pair except from 0x100 in
      emulation mode. */
  lemma IndexedCallReturns(s: Cpu)
    requires SpOk(s)
    ensures (forall h: Cpu :: Callee(OpenFrame(s.sp, 2), JsrIndX(s), h) && h.pbr == s.pbr ==> Back(s, 3, Rts(h)))
            <==> (s.emul ==> s.sp >= 0x101)
  {
    if s.emul && s.sp == 0x100 {
      JsrIndXFrame(s);
      var e := JsrIndX(s);
      var v: byte := if Low16(s.pc + 2) % 0x100 == 0 then 1 else 0;
      ChangedElsewhere(OpenFrame(s.sp, 2), e, 0x1ff, v);
      var h := e.(mem := Write(e.mem, 0x1ff, v));
      assert Rts(h).pc != Low16(s.pc + 3);
    } else {
      forall h: Cpu | Callee(OpenFrame(s.sp, 2), JsrIndX(s), h) && h.pbr == s.pbr
        ensures Back(s, 3, Rts(h))
      {
        JsrIndXRts(s, h);
      }
    }
  }

  lemma PhdFrame(s: Cpu)
    ensures var e := Phd(s);
            && e.emul == s.emul
            && e.sp == OpenDown(s.emul, s.sp, 2)
            && Load(e.mem, s.sp) == s.dpr / 0x100
            && Load(e.mem, Low16(s.sp - 1)) == s.dpr % 0x100
  {
    LowIsRemainder(s.dpr);
  }

  lemma PhdPld(s: Cpu, h: Cpu)
    requires (s.emul ==> 0x102 <= s.sp < 0x200) && Callee(OpenFrame(s.sp, 2), Phd(s), h)
    ensures Pld(h).dpr == s.dpr && Pld(h).sp == s.sp
  {
    PhdFrame(s);
    OpenPath(s.emul, s.sp, 0, 2);
    OpenPath(s.emul, s.sp, 1, 2);
    var f := OpenFrame(s.sp, 2);
    assert Load(h.mem, f[0]) == s.dpr / 0x100;
    assert Load(h.mem, f[1]) == s.dpr % 0x100;
  }

  /** PLD restores what PHD saved exactly when both pushes stay in page one. */
  lemma DirectPageRestored(s: Cpu)
    requires SpOk(s)
    ensures (forall h: Cpu :: Callee(OpenFrame(s.sp, 2), Phd(s), h) ==> Pld(h).dpr == s.dpr && Pld(h).sp == s.sp)
            <==> (s.emul ==> s.sp >= 0x102)
  {
    if s.emul && s.sp < 0x102 {
      PhdFrame(s);
      var e := Phd(s);
      var v: byte := if s.dpr / 0x100 == 0 then 1 else 0;
      ChangedElsewhere(OpenFrame(s.sp, 2), e, s.sp + 0x100, v);
      var h := e.(mem := Write(e.mem, s.sp + 0x100, v));
      assert Pld(h).dpr / 0x100 == v;
    } else {
      forall h: Cpu | Callee(OpenFrame(s.sp, 2), Phd(s), h)
        ensures Pld(h).dpr == s.dpr && Pld(h).sp == s.sp
      {
        PhdPld(s, h);
      }
    }
  }

  lemma PhpFrame(s: Cpu)
    ensures var e := Php(s);
            e.emul == s.emul && e.sp == SpDown(s) && Load(e.mem, s.sp) == ByteOf(PushedStatus(s))
  {
  }

  /** PLP after PHP restores every flag a program can observe, but for bits 4 and 5 in emulation mode,
      which come back set. */
  lemma StatusRestored(s: Cpu, h: Cpu)
    requires SpOk(s) && !s.p.n && !s.p.z && Callee([s.sp], Php(s), h)
    ensures var r := Plp(h);
            && r.sp == s.sp && Sign(r) == Sign(s) && Zero(r) == Zero(s)
            && r.p == if s.emul then s.p.(m := true, x := true) else s.p
  {
    PhpFrame(s);
    assert Load(h.mem, [s.sp as Addr][0]) == ByteOf(PushedStatus(s));
    BelowAbove(s.emul, s.sp);
    var h1 := PullSp(IncPc(h, 1));
    assert Plp(h) == Narrow(SetStatus(h1, ByteOf(PushedStatus(s))));
    FlagsLoaded(h1, PushedStatus(s));
  }

  lemma FlagsLoaded(s: Cpu, p: P)
    ensures var t := Narrow(SetStatus(s, ByteOf(p)));
            t.sp == s.sp && t.p == p.(n := false, z := false) && Sign(t) == p.n && Zero(t) == p.z
  {
    StatusLoaded(s, p);
  }

  // ---------------------------------------------------------------- registers saved and restored

  /** The bytes a confined push of one or two bytes writes. */
  function SavedAt(s: Cpu, bits8: bool): seq<Addr> {
    if bits8 then [s.sp] else [s.sp, SpDown(s)]
  }

  /** A callee that has also left the register widths as they were. */
  ghost predicate SameWidths(s: Cpu, h: Cpu) {
    h.p.m == s.p.m && h.p.x == s.p.x
  }

  /** What a confined push of a word leaves for a pull of a word. */
  lemma WordSaved(s: Cpu, s0: Cpu, v: word, h: Cpu)
    requires SpOk(s) && s0.sp == s.sp && s0.emul == s.emul && Callee(SavedAt(s, false), PushWord(s0, v), h)
    ensures PulledWord(h) == v && PullWordSp(h).sp == s.sp
  {
    var f := SavedAt(s, false);
    LowIsRemainder(v);
    BelowAbove(s.emul, s.sp);
    BelowAbove(s.emul, SpDown(s));
    assert Load(h.mem, f[0]) == v / 0x100 && Load(h.mem, f[1]) == v % 0x100;
  }

  lemma ByteSaved(s: Cpu, s0: Cpu, v: byte, h: Cpu)
    requires SpOk(s) && s0.sp == s.sp && s0.emul == s.emul && Callee(SavedAt(s, true), Push(s0, v), h)
    ensures Pulled(h) == v && PullSp(h).sp == s.sp
  {
    BelowAbove(s.emul, s.sp);
    assert Load(h.mem, SavedAt(s, true)[0]) == v;
  }

  /** PLA after PHA restores the accumulator, as wide as it is, and sets N and Z by it. */
  lemma AccumulatorRestored(s: Cpu, h: Cpu)
    requires SpOk(s) && Callee(SavedAt(s, M8(s)), Pha(s), h) && SameWidths(s, h)
    ensures var r := Pla(h);
            && r.sp == s.sp && (if M8(s) then A(r) == A(s) && r.c / 0x100 == h.c / 0x100 else r.c == s.c)
            && (Zero(r) <==> (if M8(s) then A(s) == 0 else s.c == 0))
            && (Sign(r) <==> (if M8(s) then A(s) >= 0x80 else s.c >= 0x8000))
  {
    if M8(s) {
      ByteSaved(s, IncPc(s, 1), A(s), h);
    } else {
      WordSaved(s, IncPc(s, 1), s.c, h);
    }
  }

  /** PLX after PHX restores X, and PLY after PHY restores Y. */
  lemma IndexRestored(s: Cpu, r: word, h: Cpu)
    requires SpOk(s) && (X8(s) ==> r < 0x100)
    requires Callee(SavedAt(s, X8(s)), PushIndex(s, r), h) && SameWidths(s, h)
    ensures Plx(h).x == r && Plx(h).y == h.y && Plx(h).sp == s.sp
    ensures Ply(h).y == r && Ply(h).x == h.x && Ply(h).sp == s.sp
  {
    if X8(s) {
      ByteSaved(s, IncPc(s, 1), r, h);
    } else {
      WordSaved(s, IncPc(s, 1), r, h);
    }
  }

  /** PLB after PHB restores the data bank; after PHK it becomes the program bank. */
  lemma BankRestored(s: Cpu, b: byte, h: Cpu)
    requires SpOk(s) && Callee(SavedAt(s, true), PushByte(s, b), h)
    ensures Plb(h).dbr == b && Plb(h).sp == s.sp
  {
    ByteSaved(s, IncPc(s, 1), b, h);
  }

  /** An unconfined push of a word, as PEA, PEI and PER do it, is undone by PLD. */
  lemma OpenWordPulled(s: Cpu, s0: Cpu, v: int, h: Cpu)
    requires (s.emul ==> 0x102 <= s.sp < 0x200) && s0.sp == s.sp && s0.emul == s.emul
    requires 0 <= v < 0x2_0000 && Callee(OpenFrame(s.sp, 2), PushWordOpen(s0, v), h)
    ensures Pld(h).dpr == Low16(v) && Pld(h).sp == s.sp
  {
    OpenPath(s.emul, s.sp, 0, 2);
    OpenPath(s.emul, s.sp, 1, 2);
    LowBytes(v);
    var f := OpenFrame(s.sp, 2);
    assert Load(h.mem, f[0]) == Low8(v / 0x100) && Load(h.mem, f[1]) == Low8(v);
  }

  lemma LowBytes(v: int)
    requires 0 <= v < 0x2_0000
    ensures Low8(v) + 0x100 * Low8(v / 0x100) == Low16(v)
  {
    LowIsRemainder(v);
    LowIsRemainder(v / 0x100);
  }

  /** PEA pushes its operand: PLD gets it back. */
  lemma PeaPulled(s: Cpu, h: Cpu)
    requires (s.emul ==> 0x102 <= s.sp < 0x200) && Callee(OpenFrame(s.sp, 2), Pea(s), h)
    ensures Pld(h).dpr == Fetch(s, Low16(s.pc + 1)) + 0x100 * Fetch(s, Low16(s.pc + 2)) && Pld(h).sp == s.sp
  {
    OpenWordPulled(s, IncPc(s, 3), Fetch(s, Low16(s.pc + 1)) + 0x100 * Fetch(s, Low16(s.pc + 2)), h);
  }

  /** PER pushes the address that its operand is relative to the next instruction. */
  lemma PerPulled(s: Cpu, h: Cpu)
    requires (s.emul ==> 0x102 <= s.sp < 0x200) && Callee(OpenFrame(s.sp, 2), Per(s), h)
    ensures Pld(h).dpr == Low16(Low16(s.pc + 3) + Fetch(s, Low16(s.pc + 1)) + 0x100 * Fetch(s, Low16(s.pc + 2)))
  {
    var v := Low16(s.pc + 3) + Fetch(s, Low16(s.pc + 1)) + 0x100 * Fetch(s, Low16(s.pc + 2));
    OpenWordPulled(s, IncPc(s, 3), v, h);
  }

  /** PEI pushes the word at its operand in the direct page. */
  lemma PeiPulled(s: Cpu, h: Cpu)
    requires (s.emul ==> 0x102 <= s.sp < 0x200) && Callee(OpenFrame(s.sp, 2), Pei(s), h)
    ensures var ea := Fetch(s, Low16(s.pc + 1)) + s.dpr;
            Pld(h).dpr == Load(s.mem, Low16(ea)) + 0x100 * Load(s.mem, Low16(ea + 1)) && Pld(h).sp == s.sp
  {
    var ea := Fetch(s, Low16(s.pc + 1)) + s.dpr;
    OpenWordPulled(s, IncPc(s, 2), Load(s.mem, Low16(ea)) + 0x100 * Load(s.mem, Low16(ea + 1)), h);
  }

  // ---------------------------------------------------------------- what the mode switches mean

  /** A flag that is named becomes `v`. */
  function Named(named: bool, v: bool, was: bool): bool {
    if named then v else was
  }

  /** The flags after REP or SEP with operand `f`. */
  function Switched(p: P, f: P, v: bool, emul: bool): P {
    P(Named(f.n, v, p.n), Named(f.v, v, p.v), Named(f.m && !emul, v, p.m), Named(f.x && !emul, v, p.x),
      Named(f.d, v, p.d), Named(f.i, v, p.i), Named(f.z, v, p.z), Named(f.c, v, p.c))
  }

  /** REP and SEP, as a program sees them: the flags named in the operand become `v`, the others stay,
      and in emulation mode bits 4 and 5 stay. */
  lemma RepSepMeans(s: Cpu, v: bool)
    requires !s.p.n && !s.p.z
    ensures Status(RepSep(s, v)) == Switched(Status(s), FlagsOf(Fetch(s, Low16(s.pc + 1))), v, s.emul)
  {
    var f, s1 := FlagsOf(Fetch(s, Low16(s.pc + 1))), IncPc(s, 2);
    FlagsSwitched(s1, HighFlags(s1, f, v), IndexFlag(HighFlags(s1, f, v), f, v), f, v);
    assert Status(s1) == Status(s) && s1.emul == s.emul;
  }

  lemma FlagsSwitched(s1: Cpu, s2: Cpu, s3: Cpu, f: P, v: bool)
    requires !s1.p.n && !s1.p.z && s2 == HighFlags(s1, f, v) && s3 == IndexFlag(s2, f, v)
    ensures Status(LowFlags(s3, f, v)) == Switched(Status(s1), f, v, s1.emul)
  {
    HighFlagsMean(s1, f, v);
    IndexFlagMeans(s2, f, v);
    LowFlagsMean(s3, f, v);
    SwitchedInTurn(Status(s1), Status(s2), Status(s3), Status(LowFlags(s3, f, v)), f, v, s1.emul);
  }

  /** The three groups of flags, one after the other. */
  predicate HighSwitched(p: P, t: P, f: P, v: bool, emul: bool) {
    t == p.(n := Named(f.n, v, p.n), v := Named(f.v, v, p.v), m := Named(f.m && !emul, v, p.m))
  }

  predicate IndexSwitched(p: P, t: P, f: P, v: bool, emul: bool) {
    t == p.(x := Named(f.x && !emul, v, p.x))
  }

  predicate LowSwitched(p: P, t: P, f: P, v: bool) {
    t == p.(d := Named(f.d, v, p.d), i := Named(f.i, v, p.i), z := Named(f.z, v, p.z), c := Named(f.c, v, p.c))
  }

  lemma SwitchedInTurn(p: P, p1: P, p2: P, p3: P, f: P, v: bool, emul: bool)
    requires HighSwitched(p, p1, f, v, emul) && IndexSwitched(p1, p2, f, v, emul) && LowSwitched(p2, p3, f, v)
    ensures p3 == Switched(p, f, v, emul)
  {
  }

  lemma HighBitsMean(p: P, f: P, v: bool, emul: bool)
    ensures HighBits(p, f, v, emul) == p.(v := Named(f.v, v, p.v), m := Named(f.m && !emul, v, p.m))
  {
  }

  lemma HighFlagsMean(s: Cpu, f: P, v: bool)
    requires !s.p.n && !s.p.z
    ensures HighSwitched(Status(s), Status(HighFlags(s, f, v)), f, v, s.emul)
    ensures var t := HighFlags(s, f, v); !t.p.n && !t.p.z && t.emul == s.emul
  {
    HighBitsMean(s.p, f, v, s.emul);
    assert Sign(HighFlags(s, f, v)) == Named(f.n, v, Sign(s));
  }

  lemma IndexFlagMeans(s: Cpu, f: P, v: bool)
    requires !s.p.n && !s.p.z
    ensures IndexSwitched(Status(s), Status(IndexFlag(s, f, v)), f, v, s.emul)
    ensures var t := IndexFlag(s, f, v); !t.p.n && !t.p.z && t.emul == s.emul
  {
  }

  lemma LowBitsMean(p: P, f: P, v: bool)
    ensures LowBits(p, f, v) == p.(d := Named(f.d, v, p.d), i := Named(f.i, v, p.i), c := Named(f.c, v, p.c))
  {
  }

  lemma LowFlagsMean(s: Cpu, f: P, v: bool)
    requires !s.p.n && !s.p.z
    ensures LowSwitched(Status(s), Status(LowFlags(s, f, v)), f, v)
  {
    LowBitsMean(s.p, f, v);
    assert Zero(LowFlags(s, f, v)) == Named(f.z, v, Zero(s));
  }

  /** XCE swaps the carry and the mode; done twice it is undone but for what emulation mode cannot keep:
      long index registers, a stack pointer outside page one and, going there and back, M and X clear. */
  lemma XceSwaps(s: Cpu)
    ensures var t := Xce(s);
            && t.p.c == s.emul && t.emul == s.p.c && t.c == s.c && t.mem == s.mem
            && Status(t) == Status(s).(c := s.emul, m := t.p.m, x := t.p.x)
    ensures var u := Xce(Xce(s));
            && u.p.c == s.p.c && u.emul == s.emul && u.c == s.c
            && u.x == (if s.p.c != s.emul then Low8(s.x) else s.x)
            && u.y == (if s.p.c != s.emul then Low8(s.y) else s.y)
            && u.sp == (if s.p.c != s.emul then 0x100 + s.sp % 0x100 else s.sp)
  {
  }
}
