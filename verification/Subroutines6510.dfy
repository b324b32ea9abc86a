/**
 Nested subroutine calls on the stack of the 6510, which wraps inside page one: how deep they can go,
 and what happens beyond that.
 */
module Subroutines6510 {
  import opened Basics
  import opened Mos6510

  // ---------------------------------------------------------------- well-nested programs

  /** A program whose stack use is nested: `Other` does anything to the registers and the memory but the
      stack, `Call` is JSR, a body and RTS, `Save` is PHA, a body and PLA, and `Served` is an interrupt,
      its handler and RTI. */
  datatype Code = Done
    | Other(t: Cpu, rest: Code)
    | Call(body: Code, rest: Code)
    | Save(body: Code, rest: Code)
    | Served(nmi: bool, body: Code, rest: Code)

  /** The registers of `t` and the memory of `t`, except the stack and its pointer. */
  function Besides(s: Cpu, t: Cpu): Cpu {
    t.(sp := s.sp, mem := t.mem[..0x100] + s.mem[0x100..0x200] + t.mem[0x200..])
  }

  function Exec(s: Cpu, code: Code): Cpu
    decreases code
  {
    match code
    case Done => s
    case Other(t, rest) => Exec(Besides(s, t), rest)
    case Call(body, rest) => Exec(Rts(Exec(Jsr(s), body)), rest)
    case Save(body, rest) => Exec(Pla(Exec(Pha(s), body)), rest)
    case Served(nmi, body, rest) => Exec(Rti(Exec(Interrupt(s, false, nmi), body)), rest)
  }

  /** The most bytes that are on the stack at any time. */
  function Use(code: Code): nat {
    match code
    case Done => 0
    case Other(_, rest) => Use(rest)
    case Call(body, rest) => Max(2 + Use(body), Use(rest))
    case Save(body, rest) => Max(1 + Use(body), Use(rest))
    case Served(_, body, rest) => Max(3 + Use(body), Use(rest))
  }

  function Max(a: nat, b: nat): nat {
    if a < b then b else a
  }

  /** The stack pointer is back, and all of page one but the `use` bytes below it is as it was. */
  ghost predicate Balanced(s: Cpu, use: nat, t: Cpu) {
    && t.sp == s.sp
    && forall k :: use <= k < 0x100 ==> t.mem[Slot(s.sp, k)] == s.mem[Slot(s.sp, k)]
  }

  lemma SlotBelow(sp: byte, n: nat, k: nat)
    requires n <= 3 && k + n < 0x100 + n <= 0x103
    ensures Slot(Low8(sp - n), k) == Slot(sp, k + n)
  {
  }

  lemma SlotsDiffer(sp: byte, j: nat, k: nat)
    requires j < k < 0x100
    ensures Slot(sp, j) != Slot(sp, k)
  {
  }

  /** An instruction that has pushed `n` bytes. */
  ghost predicate Pushed(s: Cpu, n: nat, t: Cpu) {
    && t.sp == Low8(s.sp - n)
    && forall k :: n <= k < 0x100 ==> t.mem[Slot(s.sp, k)] == s.mem[Slot(s.sp, k)]
  }

  /** Pushing `n` bytes and pulling them after a balanced body is balanced, and the body leaves the bytes
      alone if there is room for all. */
  lemma Bracket(s: Cpu, n: nat, s1: Cpu, use: nat, s2: Cpu, s3: Cpu)
    requires 1 <= n <= 3 && n + use <= 0x100
    requires Pushed(s, n, s1) && Balanced(s1, use, s2) && s3.mem == s2.mem && s3.sp == s.sp
    ensures Balanced(s, n + use, s3)
    ensures forall k :: 0 <= k < n ==> s2.mem[Slot(s.sp, k)] == s1.mem[Slot(s.sp, k)]
  {
    forall k | n + use <= k < 0x100
      ensures s3.mem[Slot(s.sp, k)] == s.mem[Slot(s.sp, k)]
    {
      SlotBelow(s.sp, n, k - n);
    }
    forall k | 0 <= k < n
      ensures s2.mem[Slot(s.sp, k)] == s1.mem[Slot(s.sp, k)]
    {
      SlotBelow(s.sp, n, 0x100 - n + k);
      assert Slot(s.sp, 0x100 + k) == Slot(s.sp, k);
    }
  }

  lemma BalancedTrans(s: Cpu, u: nat, t: Cpu, v: nat, r: Cpu)
    requires Balanced(s, u, t) && Balanced(t, v, r)
    ensures Balanced(s, Max(u, v), r)
  {
  }

  lemma JsrPushes(s: Cpu)
    ensures var t := Jsr(s);
            && Pushed(s, 2, t)
            && t.mem[Slot(s.sp, 0)] == Low16(s.pc + 2) / 0x100 && t.mem[Slot(s.sp, 1)] == Low16(s.pc + 2) % 0x100
  {
    PushTwo(s, IncPc(s, 2), Low16(s.pc + 2));
  }

  lemma PushTwo(s: Cpu, s0: Cpu, v: word)
    requires s0.sp == s.sp && s0.mem == s.mem
    ensures var t := Push(Push(s0, v / 0x100), v % 0x100);
            && Pushed(s, 2, t) && t.mem[Slot(s.sp, 0)] == v / 0x100 && t.mem[Slot(s.sp, 1)] == v % 0x100
  {
    forall k | 2 <= k < 0x100
      ensures Slot(s.sp, k) != Slot(s.sp, 0) && Slot(s.sp, k) != Slot(s.sp, 1)
    {
      SlotsDiffer(s.sp, 0, k);
      SlotsDiffer(s.sp, 1, k);
    }
    SlotsDiffer(s.sp, 0, 1);
  }

  lemma PhaPushes(s: Cpu)
    ensures Pushed(s, 1, Pha(s))
  {
    forall k | 1 <= k < 0x100
      ensures Slot(s.sp, k) != Slot(s.sp, 0)
    {
      SlotsDiffer(s.sp, 0, k);
    }
  }

  lemma InterruptPushes(s: Cpu, nmi: bool)
    ensures Pushed(s, 3, Interrupt(s, false, nmi))
  {
    InterruptFrame(s, false, nmi);
    forall k | 3 <= k < 0x100
      ensures Slot(s.sp, k) != Slot(s.sp, 0) && Slot(s.sp, k) != Slot(s.sp, 1) && Slot(s.sp, k) != Slot(s.sp, 2)
    {
      SlotsDiffer(s.sp, 0, k);
      SlotsDiffer(s.sp, 1, k);
      SlotsDiffer(s.sp, 2, k);
    }
  }

  /** RTS and RTI pull two and three bytes and write none. */
  lemma ReturnsPull(t: Cpu, sp: byte)
    ensures t.sp == Low8(sp - 2) ==> Rts(t).sp == sp
    ensures t.sp == Low8(sp - 3) ==> Rti(t).sp == sp
    ensures Rts(t).mem == t.mem && Rti(t).mem == t.mem
  {
  }

  /** A bracket and what follows it. */
  lemma Around(s: Cpu, n: nat, s1: Cpu, use: nat, s2: Cpu, s3: Cpu, v: nat, r: Cpu)
    requires 1 <= n <= 3 && n + use <= 0x100
    requires Pushed(s, n, s1) && Balanced(s1, use, s2) && s3.mem == s2.mem && s3.sp == s.sp && Balanced(s3, v, r)
    ensures Balanced(s, Max(n + use, v), r)
  {
    Bracket(s, n, s1, use, s2, s3);
    BalancedTrans(s, n + use, s3, v, r);
  }

  /** A program that needs at most the whole page leaves the stack pointer as it was and the rest of the
      page alone. */
  lemma {:induction false} ExecBalanced(s: Cpu, code: Code)
    requires Use(code) <= 0x100
    ensures Balanced(s, Use(code), Exec(s, code))
    decreases code, 2
  {
    match code {
      case Done =>
      case Other(t, rest) => ExecBalanced(Besides(s, t), rest);
      case Call(body, rest) => CallBalanced(s, body, rest);
      case Save(body, rest) => SaveBalanced(s, body, rest);
      case Served(nmi, body, rest) => ServedBalanced(s, nmi, body, rest);
    }
  }

  lemma {:induction false} CallBalanced(s: Cpu, body: Code, rest: Code)
    requires Use(Call(body, rest)) <= 0x100
    ensures Balanced(s, Use(Call(body, rest)), Exec(s, Call(body, rest)))
    decreases Call(body, rest), 1
  {
    var s2 := Exec(Jsr(s), body);
    JsrPushes(s);
    ExecBalanced(Jsr(s), body);
    ExecBalanced(Rts(s2), rest);
    ReturnsPull(s2, s.sp);
    Around(s, 2, Jsr(s), Use(body), s2, Rts(s2), Use(rest), Exec(Rts(s2), rest));
  }

  lemma {:induction false} SaveBalanced(s: Cpu, body: Code, rest: Code)
    requires Use(Save(body, rest)) <= 0x100
    ensures Balanced(s, Use(Save(body, rest)), Exec(s, Save(body, rest)))
    decreases Save(body, rest), 1
  {
    var s2 := Exec(Pha(s), body);
    PhaPushes(s);
    ExecBalanced(Pha(s), body);
    ExecBalanced(Pla(s2), rest);
    Around(s, 1, Pha(s), Use(body), s2, Pla(s2), Use(rest), Exec(Pla(s2), rest));
  }

  lemma {:induction false} ServedBalanced(s: Cpu, nmi: bool, body: Code, rest: Code)
    requires Use(Served(nmi, body, rest)) <= 0x100
    ensures Balanced(s, Use(Served(nmi, body, rest)), Exec(s, Served(nmi, body, rest)))
    decreases Served(nmi, body, rest), 1
  {
    InterruptPushes(s, nmi);
    HandledBalanced(s, Interrupt(s, false, nmi), nmi, body, rest);
  }

  /** From the handler on */
  lemma {:induction false} HandledBalanced(s: Cpu, s1: Cpu, nmi: bool, body: Code, rest: Code)
    requires Use(Served(nmi, body, rest)) <= 0x100 && Pushed(s, 3, s1)
    ensures Balanced(s, Use(Served(nmi, body, rest)), Exec(Rti(Exec(s1, body)), rest))
    decreases Served(nmi, body, rest), 0
  {
    var s2 := Exec(s1, body);
    ExecBalanced(s1, body);
    ExecBalanced(Rti(s2), rest);
    ReturnsPull(s2, s.sp);
    Around(s, 3, s1, Use(body), s2, Rti(s2), Use(rest), Exec(Rti(s2), rest));
  }

  /** A call returns to the instruction behind it, from whatever stack pointer, as long as the call and
      everything nested in it need no more than the 256 bytes of the page. */
  lemma CallReturns(s: Cpu, body: Code)
    requires 2 + Use(body) <= 0x100
    ensures var r := Rts(Exec(Jsr(s), body));
            r.pc == Low16(s.pc + 3) && r.sp == s.sp
  {
    JsrPushes(s);
    ExecBalanced(Jsr(s), body);
    var s2 := Exec(Jsr(s), body);
    ReturnsPull(s2, s.sp);
    Bracket(s, 2, Jsr(s), Use(body), s2, Rts(s2));
    RtsReads(s2, s.sp);
    BehindCall(s.pc, Low16(s.pc + 2));
  }

  /** The last byte of the call, taken apart and put together again, and the place behind it. */
  lemma BehindCall(pc: word, last: word)
    requires last == Low16(pc + 2)
    ensures Low16(last % 0x100 + 0x100 * (last / 0x100) + 1) == Low16(pc + 3)
  {
  }

  /** Where the return address at `sp` and below leads. */
  function ReturnTo(t: Cpu, sp: byte): word {
    Low16(t.mem[Slot(sp, 1)] as int + 0x100 * t.mem[Slot(sp, 0)] as int + 1)
  }

  lemma RtsReads(t: Cpu, sp: byte)
    requires t.sp == Low8(sp - 2)
    ensures Rts(t).sp == sp && Rts(t).pc == ReturnTo(t, sp)
  {
  }

  // ---------------------------------------------------------------- calls within calls

  ghost predicate SameStack(s: Cpu, t: Cpu) {
    s.sp == t.sp && forall a: word :: 0x100 <= a < 0x200 ==> s.mem[a] == t.mem[a]
  }

  /** `calls[i]` is the state in which the `i`-th JSR is executed, none of them returning; in between, and
      on the way to `bottom`, anything happens that leaves the stack alone. */
  ghost predicate Descent(calls: seq<Cpu>, bottom: Cpu) {
    && calls != []
    && SameStack(Jsr(calls[|calls| - 1]), bottom)
    && forall i :: 0 < i < |calls| ==> SameStack(Jsr(calls[i - 1]), calls[i])
  }

  /** `rets[k]` is the state in which the `k`-th RTS is executed on the way back. */
  ghost predicate Ascent(bottom: Cpu, rets: seq<Cpu>) {
    && rets != []
    && SameStack(bottom, rets[0])
    && forall k :: 0 < k < |rets| ==> SameStack(Rts(rets[k - 1]), rets[k])
  }

  /** The stack pointer after `i` calls. */
  function SpAfter(sp: byte, i: nat): byte {
    if i == 0 then sp else Low8(SpAfter(sp, i - 1) - 2)
  }

  lemma {:induction false} SpShift(sp: byte, i: nat, d: nat)
    requires d <= 128
    ensures SpAfter(sp, i + d) == Low8(SpAfter(sp, i) - 2 * d)
  {
    if d > 0 {
      SpShift(sp, i, d - 1);
    }
  }

  /** The return address of a call at `site` is on the stack, at `sp` and below. */
  predicate Holds(t: Cpu, sp: byte, site: word) {
    && t.mem[Slot(sp, 0)] == Low16(site + 2) / 0x100
    && t.mem[Slot(sp, 1)] == Low16(site + 2) % 0x100
  }

  lemma Low8Steps(sp: byte)
    ensures Low8(Low8(sp - 1) - 1) == Low8(sp - 2) && Low8(Low8(Low8(sp - 2) + 1) + 1) == sp
  {
  }

  lemma JsrHolds(t: Cpu)
    ensures Jsr(t).sp == Low8(t.sp - 2) && Holds(Jsr(t), t.sp, t.pc)
  {
    JsrPushes(t);
  }

  lemma {:induction false} DescentSp(calls: seq<Cpu>, bottom: Cpu, i: nat)
    requires Descent(calls, bottom) && i < |calls|
    ensures calls[i].sp == SpAfter(calls[0].sp, i) && Jsr(calls[i]).sp == SpAfter(calls[0].sp, i + 1)
  {
    if i > 0 {
      DescentSp(calls, bottom, i - 1);
    }
    JsrHolds(calls[i]);
  }

  /** Up to 127 further calls leave the return address of a call alone. */
  lemma {:induction false} FrameKept(calls: seq<Cpu>, bottom: Cpu, i: nat, n: nat)
    requires Descent(calls, bottom) && i < n <= |calls| && n <= i + 128
    ensures Holds(Jsr(calls[n - 1]), SpAfter(calls[0].sp, i), calls[i].pc)
  {
    DescentSp(calls, bottom, n - 1);
    if i == n - 1 {
      JsrHolds(calls[i]);
    } else {
      FrameKept(calls, bottom, i, n - 1);
      SpShift(calls[0].sp, i, n - 1 - i);
      JsrElsewhere(calls[n - 1], SpAfter(calls[0].sp, i), n - 1 - i);
      HoldsMoves(Jsr(calls[n - 2]), calls[n - 1], SpAfter(calls[0].sp, i), calls[i].pc);
    }
  }

  lemma HoldsMoves(s: Cpu, t: Cpu, sp: byte, site: word)
    requires SameStack(s, t) && Holds(s, sp, site)
    ensures Holds(t, sp, site)
  {
  }

  /** A call `d` levels deeper does not touch the frame at `sp`. */
  lemma JsrElsewhere(t: Cpu, sp: byte, d: nat)
    requires 0 < d < 128 && t.sp == Low8(sp - 2 * d)
    ensures Jsr(t).mem[Slot(sp, 0)] == t.mem[Slot(sp, 0)] && Jsr(t).mem[Slot(sp, 1)] == t.mem[Slot(sp, 1)]
  {
    JsrPushes(t);
    assert Slot(t.sp, 0x100 - 2 * d) == Slot(sp, 0);
    assert Slot(t.sp, 0x101 - 2 * d) == Slot(sp, 1);
  }

  /** Returns do not write, and each takes the stack pointer up by two. */
  lemma {:induction false} AscentSp(sp: byte, n: nat, bottom: Cpu, rets: seq<Cpu>, k: nat)
    requires Ascent(bottom, rets) && bottom.sp == SpAfter(sp, n) && k < |rets| <= n
    ensures rets[k].sp == SpAfter(sp, n - k) && SameStack(bottom, rets[k].(sp := bottom.sp))
    ensures Rts(rets[k]).sp == SpAfter(sp, n - k - 1)
  {
    if k > 0 {
      AscentSp(sp, n, bottom, rets, k - 1);
    }
    assert SpAfter(sp, n - k) == Low8(SpAfter(sp, n - k - 1) - 2);
    Low8Steps(SpAfter(sp, n - k - 1));
  }

  lemma ReturnReads(t: Cpu, bottom: Cpu, sp: byte)
    requires t.sp == Low8(sp - 2) && SameStack(bottom, t.(sp := bottom.sp))
    ensures Rts(t).sp == sp && Rts(t).pc == ReturnTo(bottom, sp)
  {
    RtsReads(t, sp);
  }

  /** What the return from the `i`-th call finds on the stack. */
  lemma ReturnFrom(calls: seq<Cpu>, bottom: Cpu, rets: seq<Cpu>, i: nat, k: nat)
    requires Descent(calls, bottom) && Ascent(bottom, rets) && |rets| == |calls| && i + k == |calls| - 1
    ensures Rts(rets[k]).sp == SpAfter(calls[0].sp, i)
    ensures Rts(rets[k]).pc == ReturnTo(bottom, SpAfter(calls[0].sp, i))
  {
    DescentSp(calls, bottom, |calls| - 1);
    AscentSp(calls[0].sp, |calls|, bottom, rets, k);
    assert |calls| - k == i + 1;
    ReturnReads(rets[k], bottom, SpAfter(calls[0].sp, i));
  }

  lemma HoldsReturn(t: Cpu, sp: byte, site: word)
    requires Holds(t, sp, site)
    ensures ReturnTo(t, sp) == Low16(site as int + 3)
  {
  }

  /** The return address of one of the last 128 calls is still there. */
  lemma RecentReturn(calls: seq<Cpu>, bottom: Cpu, i: nat)
    requires Descent(calls, bottom) && i < |calls| <= i + 128
    ensures ReturnTo(bottom, SpAfter(calls[0].sp, i)) == Low16(calls[i].pc as int + 3)
  {
    var sp := SpAfter(calls[0].sp, i);
    FrameKept(calls, bottom, i, |calls|);
    HoldsMoves(Jsr(calls[|calls| - 1]), bottom, sp, calls[i].pc);
    HoldsReturn(bottom, sp, calls[i].pc);
  }

  /** Calls within calls return in reverse order, each to the instruction behind it and with the stack
      pointer it found, as long as at most 128 are open. The `k`-th return, counted from the innermost call
      and from zero, is that of the `i`-th call, i + k being one less than the number of calls; it is right
      if k is below 128, and else it goes where the return 128 before it went, whose call has overwritten
      the return address. */
  lemma NestedReturns(calls: seq<Cpu>, bottom: Cpu, rets: seq<Cpu>, i: nat, k: nat)
    requires Descent(calls, bottom) && Ascent(bottom, rets) && |rets| == |calls| && i + k == |calls| - 1
    ensures Rts(rets[k]).sp == calls[i].sp
    ensures k < 128 ==> Rts(rets[k]).pc == Low16(calls[i].pc as int + 3)
    ensures k >= 128 ==> Rts(rets[k]).pc == Rts(rets[k - 128]).pc
  {
    DescentSp(calls, bottom, i);
    ReturnFrom(calls, bottom, rets, i, k);
    if k < 128 {
      RecentReturn(calls, bottom, i);
    } else {
      ReturnFrom(calls, bottom, rets, i + 128, k - 128);
      SpShift(calls[0].sp, i, 128);
    }
  }

  /** With 129 calls open, the outermost returns behind the innermost. */
  lemma OldestOverwritten(calls: seq<Cpu>, bottom: Cpu, rets: seq<Cpu>)
    requires Descent(calls, bottom) && Ascent(bottom, rets) && |rets| == |calls| == 129
    ensures Rts(rets[128]).pc == Low16(calls[128].pc as int + 3)
    ensures Rts(rets[128]).pc == Low16(calls[0].pc as int + 3) <==> calls[0].pc == calls[128].pc
  {
    NestedReturns(calls, bottom, rets, 0, 128);
    NestedReturns(calls, bottom, rets, 128, 0);
  }
}
