/**
 The 65816 core as it runs: registers and memory updated in place, one macro at a time. Every method
 is proved to do what the corresponding function on states says, so that the lemmas about those
 functions speak about this code.
 */
module Processor65816 {
  import opened Basics
  import opened BlockMove
  import S = Stack65816
  import opened StatusRegister
  import opened W = Wdc65816

  class Processor {
    var c: word
    var x: word
    var y: word
    var dbr: byte
    var pbr: byte
    var dpr: word
    var sp: word
    var p: P
    var fn: byte
    var fz: byte
    var emul: bool
    var pc: word
    const mem: array<byte>

    ghost predicate Valid() {
      mem.Length == SPACE
    }

    /** The registers and the contents of the memory. */
    ghost function Abs(): Cpu
      reads this, mem
      requires Valid()
    {
      Cpu(c, x, y, dbr, pbr, dpr, sp, p, fn, fz, emul, pc, mem[..])
    }

    /** `maincpu_mainloop`: the registers before the first reset, over a given memory. */
    constructor (mem: array<byte>)
      requires mem.Length == SPACE
      ensures Valid() && this.mem == mem
      ensures Abs() == PowerOn(mem[..])
    {
      c, x, y, dbr, pbr, dpr, sp := 0, 0, 0, 0, 0, 0, 0x100;
      p, fn, fz, emul, pc := P(false, false, false, false, false, false, false, false), 0, 0, true, 0;
      this.mem := mem;
    }

    // -------------------------------------------------------------- memory and stack

    method StoreLong(a: Addr, v: int)
      requires Valid()
      modifies mem
      ensures Abs() == W.StoreLong(old(Abs()), a, v)
    {
      mem[a] := Low8(v);
      assert mem[..] == old(mem[..])[a := Low8(v)];
    }

    method FetchParam(a: nat) returns (b: byte)
      requires Valid()
      ensures b == Fetch(Abs(), a)
    {
      b := mem[InSpace(a + pbr * 0x1_0000)];
    }

    method IncPc(k: nat)
      requires Valid()
      modifies this`pc
      ensures Abs() == W.IncPc(old(Abs()), k)
    {
      pc := Low16(pc + k);
    }

    method Push(v: int)
      requires Valid()
      modifies this`sp, mem
      ensures Abs() == W.Push(old(Abs()), v)
    {
      StoreLong(sp, v);
      if emul {
        sp := 0x100 + Low8(sp - 1);
      } else {
        sp := Low16(sp - 1);
      }
    }

    method Pull() returns (b: byte)
      requires Valid()
      modifies this`sp
      ensures b == Pulled(old(Abs())) && Abs() == PullSp(old(Abs()))
    {
      sp := if emul then 0x100 + Low8(sp + 1) else Low16(sp + 1);
      b := mem[sp];
    }

    // -------------------------------------------------------------- interrupts

    /** `LOCAL_STATUS` or `LOCAL_65816_STATUS` */
    method PackStatus() returns (b: byte)
      requires Valid()
      ensures b == StatusByte(Abs())
    {
      OnePacking(Abs());
      b := ByteOf(p.(n := p.n || fn >= 0x80, z := p.z || fz == 0, m := p.m || emul));
    }

    method PushFrame()
      requires Valid()
      modifies this`sp, mem
      ensures Abs() == W.PushFrame(old(Abs()))
    {
      if !emul {
        Push(pbr);
      }
      Push(pc / 0x100);
      Push(pc);
      var b := PackStatus();
      Push(b);
    }

    method LoadIntAddr(a: word)
      requires Valid()
      modifies this`pc
      ensures Abs() == W.LoadIntAddr(old(Abs()), a)
    {
      pc := mem[a];
      pc := pc + 0x100 * (mem[a + 1] as int);
    }

    /** `IRQ`, `NMI` and the common part of `BRK` and `COP` */
    method Interrupt(k: Vector)
      requires Valid()
      modifies this`sp, this`p, this`pc, this`pbr, mem
      ensures Abs() == W.Interrupt(old(Abs()), k)
    {
      SetBreak(k);
      PushFrame();
      EnterHandler(VectorOf(k, emul));
    }

    method EnterHandler(vector: word)
      requires Valid()
      modifies this`p, this`pc, this`pbr
      ensures Abs() == W.EnterHandler(old(Abs()), vector)
    {
      p := p.(d := false);
      p := p.(i := true);
      LoadIntAddr(vector);
      pbr := 0;
    }

    method SetBreak(k: Vector)
      requires Valid()
      modifies this`p
      ensures Abs() == Entering(old(Abs()), k)
    {
      if emul {
        p := p.(x := k == BrkVector || k == CopVector);
      }
    }

    /** `BRK`, `COP` */
    method SoftwareInterrupt(k: Vector)
      requires Valid()
      modifies this`sp, this`p, this`pc, this`pbr, mem
      ensures Abs() == W.SoftwareInterrupt(old(Abs()), k)
    {
      IncPc(1);
      IncPc(1);
      Interrupt(k);
    }

    method SetStatus(b: byte)
      requires Valid()
      modifies this`p, this`fn, this`fz
      ensures Abs() == W.SetStatus(old(Abs()), b)
    {
      var f := FlagsOf(b);
      p := f.(n := false, z := false);
      fz := if f.z then 0 else 1;
      fn := b;
    }

    method Narrow()
      requires Valid()
      modifies this`x, this`y
      ensures Abs() == W.Narrow(old(Abs()))
    {
      if emul || p.x {
        x := Low8(x);
        y := Low8(y);
      }
    }

    method PullPc()
      requires Valid()
      modifies this`sp, this`pc
      ensures Abs() == W.PullPc(old(Abs()))
    {
      var low := Pull();
      pc := low;
      var high := Pull();
      pc := pc + 0x100 * (high as int);
    }

    method Rti()
      requires Valid()
      modifies this`sp, this`p, this`fn, this`fz, this`x, this`y, this`pc, this`pbr
      ensures Abs() == W.Rti(old(Abs()))
    {
      IncPc(1);
      var b := Pull();
      SetStatus(b);
      Narrow();
      PullPc();
      if !emul {
        pbr := Pull();
      }
    }

    // -------------------------------------------------------------- calls, mode switches

    method PushOpen(v: int)
      requires Valid()
      modifies this`sp, mem
      ensures Abs() == S.PushOpen(old(Abs()), v)
    {
      StoreLong(sp, v);
      sp := Low16(sp - 1);
    }

    method PushWordOpen(v: int)
      requires Valid()
      modifies this`sp, mem
      ensures Abs() == S.PushWordOpen(old(Abs()), v)
    {
      PushOpen(v / 0x100);
      Push(v);
    }

    /** The first two operand bytes; the program counter goes on to the third. */
    method FetchTarget() returns (target: word)
      requires Valid()
      modifies this`pc
      ensures Abs() == W.IncPc(old(Abs()), 3)
      ensures target == Fetch(old(Abs()), Low16(old(pc) + 1)) + 0x100 * Fetch(old(Abs()), Low16(old(pc) + 2))
    {
      IncPc(1);
      var p1 := FetchParam(pc);
      IncPc(1);
      var p2 := FetchParam(pc);
      IncPc(1);
      target := p1 + 0x100 * (p2 as int);
    }

    /** `JSR_LONG` */
    method Jsl()
      requires Valid()
      modifies this`sp, this`pc, this`pbr, mem
      ensures Abs() == S.Jsl(old(Abs()))
    {
      var target := FetchTarget();
      PushOpen(pbr);
      pbr := FetchParam(pc);
      PushWordOpen(pc);
      pc := target;
    }

    /** The three pulls of `RTL`, not confined to page one */
    method PullLong() returns (target: word, bank: byte)
      requires Valid()
      modifies this`sp
      ensures Abs() == old(Abs()).(sp := Low16(old(sp) + 3))
      ensures target == S.OpenByte(old(Abs()), 1) + 0x100 * S.OpenByte(old(Abs()), 2)
      ensures bank == S.OpenByte(old(Abs()), 3)
    {
      LowSteps(sp);
      sp := Low16(sp + 1);
      target := mem[sp];
      sp := Low16(sp + 1);
      target := target + 0x100 * (mem[sp] as int);
      sp := Low16(sp + 1);
      bank := mem[sp];
    }

    method Rtl()
      requires Valid()
      modifies this`sp, this`pc, this`pbr
      ensures Abs() == S.Rtl(old(Abs()))
    {
      pc, pbr := PullLong();
      if emul {
        sp := 0x100 + sp % 0x100;
      }
      IncPc(1);
    }

    method Plp()
      requires Valid()
      modifies this`sp, this`p, this`fn, this`fz, this`x, this`y, this`pc
      ensures Abs() == S.Plp(old(Abs()))
    {
      IncPc(1);
      var b := Pull();
      SetStatus(b);
      Narrow();
    }

    method Xce()
      requires Valid()
      modifies this`sp, this`p, this`x, this`y, this`pc, this`emul
      ensures Abs() == S.Xce(old(Abs()))
    {
      IncPc(1);
      if p.c != emul {
        if p.c {
          emul := true;
          p := p.(c := false);
          p := p.(x := false);
          x := Low8(x);
          y := Low8(y);
          sp := 0x100 + sp % 0x100;
        } else {
          emul := false;
          p := p.(c := true);
          p := p.(m := true);
          p := p.(x := true);
        }
      }
    }

    /** `REP` and `SEP` */
    method RepSep(v: bool)
      requires Valid()
      modifies this`p, this`fn, this`fz, this`x, this`y, this`pc
      ensures Abs() == S.RepSep(old(Abs()), v)
    {
      IncPc(1);
      var value := FetchParam(pc);
      IncPc(1);
      var f := FlagsOf(value);
      SetHighFlags(f, v);
      SetIndexFlag(f, v);
      SetLowFlags(f, v);
    }

    method SetHighFlags(f: P, v: bool)
      requires Valid()
      modifies this`p, this`fn
      ensures Abs() == S.HighFlags(old(Abs()), f, v)
    {
      if f.n {
        fn := if v then 0x80 else 0;
      }
      if f.v {
        p := p.(v := v);
      }
      if f.m && !emul {
        p := p.(m := v);
      }
    }

    method SetIndexFlag(f: P, v: bool)
      requires Valid()
      modifies this`p, this`x, this`y
      ensures Abs() == S.IndexFlag(old(Abs()), f, v)
    {
      if f.x && !emul {
        p := p.(x := v);
        if v {
          x := Low8(x);
          y := Low8(y);
        }
      }
    }

    method SetLowFlags(f: P, v: bool)
      requires Valid()
      modifies this`p, this`fz
      ensures Abs() == S.LowFlags(old(Abs()), f, v)
    {
      if f.d {
        p := p.(d := v);
      }
      if f.i {
        p := p.(i := v);
      }
      if f.z {
        fz := if v then 0 else 1;
      }
      if f.c {
        p := p.(c := v);
      }
    }

    // -------------------------------------------------------------- block moves

    /** The operands of `MOVE`: the source bank ends up in `dbr`. */
    method FetchBanks() returns (dst: byte)
      requires Valid()
      modifies this`dbr, this`pc
      ensures var s := old(Abs());
              var s1 := W.IncPc(s, 1);
              var s2 := W.IncPc(s1, 1);
              if s.c == 0 then
                Abs() == W.IncPc(s2, 1).(dbr := Fetch(s2, s2.pc)) && dst == Fetch(s1, s1.pc)
              else
                Abs() == s.(dbr := Fetch(s, s.pc + 2)) && dst == Fetch(s, s.pc + 1)
    {
      if c == 0 {
        IncPc(1);
        dst := FetchParam(pc);
        IncPc(1);
        dbr := FetchParam(pc);
        IncPc(1);
      } else {
        dst := FetchParam(pc + 1);
        dbr := FetchParam(pc + 2);
      }
    }

    /** `MOVE` */
    method Move(up: bool)
      requires Valid()
      modifies this`c, this`x, this`y, this`dbr, this`pc, mem
      ensures Abs() == BlockMove.Move(old(Abs()), up)
    {
      ghost var s := Abs();
      var dst := FetchBanks();
      assert BlockMove.Move(s, up) == MoveByte(Abs(), up, dst, dbr);
      CopyByte(up, dst);
    }

    /** The part of `MOVE` behind the operand fetches: from bank `dbr` to bank `dst`. */
    method CopyByte(up: bool, dst: byte)
      requires Valid()
      modifies this`c, this`x, this`y, this`dbr, mem
      ensures Abs() == MoveByte(old(Abs()), up, dst, old(dbr))
    {
      var tmp := mem[x + dbr * 0x1_0000];
      dbr := dst;
      StoreLong(y + dbr * 0x1_0000, tmp);
      StepIndices(up);
      c := Low16(c - 1);
    }

    method StepIndices(up: bool)
      requires Valid()
      modifies this`x, this`y
      ensures var s := old(Abs()); Abs() == s.(x := Stepped(s.x, up, X8(s)), y := Stepped(s.y, up, X8(s)))
    {
      x := if up then Low16(x + 1) else Low16(x - 1);
      y := if up then Low16(y + 1) else Low16(y - 1);
      if emul || p.x {
        x := Low8(x);
        y := Low8(y);
      }
    }

    /** One turn of the main loop on a block move that was started in state `s`. */
    method Execute(ghost s: Cpu, ghost up: bool, ghost k: nat)
      requires Valid() && MoveOk(s, up) && Fetch(s, s.pc) == (if up then 0x54 else 0x44)
      requires k <= s.c && Reached(s, up, k, Abs())
      modifies this`c, this`x, this`y, this`dbr, this`pc, mem
      ensures if k < s.c then Reached(s, up, k + 1, Abs()) else Abs() == Finished(s, up)
    {
      MoveAdvances(s, up, k, Abs());
      var op := FetchParam(pc);
      if op == MVN {
        Move(true);
      } else {
        Move(false);
      }
    }

    /** The main loop while it is on a block move: the opcode is fetched anew each time, and the loop
        goes on as long as the program counter has not moved. */
    method RunMove(ghost up: bool)
      requires Valid() && MoveOk(Abs(), up) && Fetch(Abs(), pc) == (if up then 0x54 else 0x44)
      modifies this`c, this`x, this`y, this`dbr, this`pc, mem
      ensures Abs() == Finished(old(Abs()), up)
    {
      var start := pc;
      ghost var s := Abs();
      ghost var k: nat := 0;
      while pc == start
        invariant k <= s.c as nat + 1
        invariant if k <= s.c then Reached(s, up, k, Abs()) else Abs() == Finished(s, up)
        decreases s.c as nat + 1 - k
      {
        Execute(s, up, k);
        k := k + 1;
      }
    }
  }

  /** `LOCAL_STATUS` sets the unused bit, which in emulation mode is the one that is M in native mode. */
  lemma OnePacking(s: Cpu)
    ensures s.p.(n := s.p.n || s.fn >= 0x80, z := s.p.z || s.fz == 0, m := s.p.m || s.emul) ==
            if s.emul then StatusEmul(s) else Status(s)
  {
  }
}
