/**
 The stack and interrupt macros of 6510core.c as they run, on registers and memory updated in place. Every
 method is proved to do what the corresponding function on states says.
 */
module Processor6510 {
  import opened Basics
  import M = Mos6510
  import opened StatusRegister

  class Processor {
    var a: byte
    var x: byte
    var y: byte
    var sp: byte
    var pc: word
    var p: P
    var fn: byte
    var fz: byte
    const mem: array<byte>

    ghost predicate Valid() {
      mem.Length == 0x1_0000
    }

    /** The registers and the contents of the memory. */
    ghost function Abs(): M.Cpu
      reads this, mem
      requires Valid()
    {
      M.Cpu(a, x, y, sp, pc, p, fn, fz, mem[..])
    }

    /** `maincpu_mainloop`: all registers zero, over a given memory. */
    constructor (mem: array<byte>)
      requires mem.Length == 0x1_0000
      ensures Valid() && this.mem == mem
      ensures Abs() == M.Cpu(0, 0, 0, 0, 0, P(false, false, false, false, false, false, false, false), 0, 0, mem[..])
    {
      a, x, y, sp, pc := 0, 0, 0, 0, 0;
      p, fn, fz := P(false, false, false, false, false, false, false, false), 0, 0;
      this.mem := mem;
    }

    method Load(addr: nat) returns (b: byte)
      requires Valid()
      ensures b == M.Load(Abs(), addr)
    {
      b := mem[Low16(addr)];
    }

    method Store(addr: nat, v: int)
      requires Valid()
      modifies mem
      ensures Abs() == M.Store(old(Abs()), addr, v)
    {
      mem[Low16(addr)] := Low8(v);
      assert mem[..] == old(mem[..])[Low16(addr) := Low8(v)];
    }

    method IncPc(k: nat)
      requires Valid()
      modifies this`pc
      ensures Abs() == M.IncPc(old(Abs()), k)
    {
      pc := Low16(pc + k);
    }

    method Push(v: int)
      requires Valid()
      modifies this`sp, mem
      ensures Abs() == M.Push(old(Abs()), v)
    {
      Store(0x100 + sp as int, v);
      sp := Low8(sp - 1);
    }

    method Pull() returns (b: byte)
      requires Valid()
      modifies this`sp
      ensures b == M.Pulled(old(Abs())) && Abs() == M.PullSp(old(Abs()))
    {
      sp := Low8(sp + 1);
      b := Load(0x100 + sp as int);
    }

    method SetNZ(v: byte)
      requires Valid()
      modifies this`fn, this`fz
      ensures Abs() == M.SetNZ(old(Abs()), v)
    {
      fn := v;
      fz := v;
    }

    method SetStatus(b: byte)
      requires Valid()
      modifies this`p, this`fn, this`fz
      ensures Abs() == M.SetStatus(old(Abs()), b)
    {
      var f := FlagsOf(b);
      p := f.(n := false, z := false);
      fz := if f.z then 0 else 1;
      fn := b;
    }

    /** `LOCAL_STATUS`, with the break bit set for `PHP` */
    method PackStatus(brk: bool) returns (b: byte)
      requires Valid()
      ensures b == ByteOf(if brk then M.Status(Abs()).(x := true) else M.Status(Abs()))
    {
      var packed := p.(n := p.n || fn >= 0x80, z := p.z || fz == 0, m := true, x := p.x || brk);
      assert packed == if brk then M.Status(Abs()).(x := true) else M.Status(Abs());
      b := ByteOf(packed);
    }

    method Pha()
      requires Valid()
      modifies this`sp, this`pc, mem
      ensures Abs() == M.Pha(old(Abs()))
    {
      Push(a);
      IncPc(1);
    }

    method Pla()
      requires Valid()
      modifies this`a, this`sp, this`pc, this`fn, this`fz
      ensures Abs() == M.Pla(old(Abs()))
    {
      var tmp := Pull();
      a := tmp;
      SetNZ(tmp);
      IncPc(1);
    }

    method Php()
      requires Valid()
      modifies this`sp, this`pc, mem
      ensures Abs() == M.Php(old(Abs()))
    {
      var b := PackStatus(true);
      Push(b);
      IncPc(1);
    }

    method Plp()
      requires Valid()
      modifies this`sp, this`pc, this`p, this`fn, this`fz
      ensures Abs() == M.Plp(old(Abs()))
    {
      var b := Pull();
      SetStatus(b);
      IncPc(1);
    }

    method Jsr()
      requires Valid()
      modifies this`sp, this`pc, mem
      ensures Abs() == M.Jsr(old(Abs()))
    {
      var p1 := Load(pc as int + 1);
      IncPc(2);
      Push(pc / 0x100);
      Push(pc % 0x100);
      var msb := Load(pc);
      pc := p1 + 0x100 * (msb as int);
    }

    method Rts()
      requires Valid()
      modifies this`sp, this`pc
      ensures Abs() == M.Rts(old(Abs()))
    {
      var low := Pull();
      var high := Pull();
      pc := low + 0x100 * (high as int);
      IncPc(1);
    }

    /** `DO_INTERRUPT` for IRQ and NMI, and the common part of `BRK` */
    method Interrupt(brk: bool, nmi: bool)
      requires Valid()
      modifies this`sp, this`pc, this`p, mem
      ensures Abs() == M.Interrupt(old(Abs()), brk, nmi)
    {
      PushPlace(brk);
      var b := PackStatus(false);
      Push(b);
      EnterHandler(M.VectorOf(nmi));
    }

    /** The break bit, and the program counter on the stack */
    method PushPlace(brk: bool)
      requires Valid()
      modifies this`sp, this`p, mem
      ensures Abs() == M.PushPlace(old(Abs()), brk)
    {
      p := p.(x := brk);
      Push(pc / 0x100);
      Push(pc % 0x100);
    }

    method EnterHandler(vector: word)
      requires Valid()
      modifies this`pc, this`p
      ensures Abs() == M.EnterHandler(old(Abs()), vector)
    {
      p := p.(i := true);
      var low := Load(vector);
      var high := Load(vector as int + 1);
      pc := low + 0x100 * (high as int);
    }

    method Brk(nmi: bool)
      requires Valid()
      modifies this`sp, this`pc, this`p, mem
      ensures Abs() == M.Brk(old(Abs()), nmi)
    {
      IncPc(2);
      Interrupt(true, nmi);
    }

    method Rti()
      requires Valid()
      modifies this`sp, this`pc, this`p, this`fn, this`fz
      ensures Abs() == M.Rti(old(Abs()))
    {
      var b := Pull();
      SetStatus(b);
      var low := Pull();
      var high := Pull();
      pc := low + 0x100 * (high as int);
    }
  }
}
