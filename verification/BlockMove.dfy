/**
 MVN and MVP of the 65816: one byte per execution, the program counter staying on the opcode until
 the count in C has run out. What the whole run does to memory, and why interrupts between the
 executions make no difference.
 */
module BlockMove {
  import opened Basics
  import opened Wdc65816

  // ---------------------------------------------------------------- one execution

  const MVN: byte := 0x54
  const MVP: byte := 0x44

  /** An index register after one step: it wraps at 16 bits, and at 8 bits with the X flag. */
  function Stepped(r: word, up: bool, x8: bool): word {
    var r' := if up then Low16(r + 1) else Low16(r - 1);
    if x8 then Low8(r') else r'
  }

  /** `MOVE`, once the banks are known and the program counter has been dealt with */
  function MoveByte(s: Cpu, up: bool, dst: byte, src: byte): Cpu {
    var v := Load(s.mem, s.x + src * 0x1_0000);
    s.(dbr := dst, mem := Write(s.mem, s.y + dst * 0x1_0000, v),
       x := Stepped(s.x, up, X8(s)), y := Stepped(s.y, up, X8(s)), c := Low16(s.c - 1))
  }

  /** `MOVE`: only with C at zero does the program counter move on. */
  function Move(s: Cpu, up: bool): Cpu {
    if s.c == 0 then
      var s1 := IncPc(s, 1);
      var s2 := IncPc(s1, 1);
      MoveByte(IncPc(s2, 1), up, Fetch(s1, s1.pc), Fetch(s2, s2.pc))
    else MoveByte(s, up, Fetch(s, s.pc + 1), Fetch(s, s.pc + 2))
  }

  /** `k` executions in a row */
  function Moves(s: Cpu, up: bool, k: nat): Cpu {
    if k == 0 then s else Move(Moves(s, up, k - 1), up)
  }

  // ---------------------------------------------------------------- a whole move

  /** The move that a state is about to start. */
  datatype Job = Job(up: bool, src: byte, dst: byte, x: word, y: word, width: nat)

  ghost predicate ValidJob(j: Job) {
    && (j.width == 0x100 || j.width == 0x1_0000)
    && j.x < j.width && j.y < j.width
  }

  function JobOf(s: Cpu, up: bool): Job {
    Job(up, Fetch(s, s.pc + 2), Fetch(s, s.pc + 1), s.x, s.y, if X8(s) then 0x100 else 0x1_0000)
  }

  /** The index register after `i` executions. */
  function Index(j: Job, r: word, i: nat): word {
    if i == 0 then r else Stepped(Index(j, r, i - 1), j.up, j.width == 0x100)
  }

  function Src(j: Job, i: nat): Addr {
    Index(j, j.x, i) + j.src * 0x1_0000
  }

  function Dst(j: Job, i: nat): Addr {
    Index(j, j.y, i) + j.dst * 0x1_0000
  }

  /** The memory after `k` bytes have been copied, one at a time. */
  function Copied(m: Memory, j: Job, k: nat): Memory {
    if k == 0 then m
    else
      var m' := Copied(m, j, k - 1);
      Write(m', Dst(j, k - 1), Load(m', Src(j, k - 1)))
  }

  /** The address is one of the three bytes of the instruction. */
  predicate InInstr(s: Cpu, a: nat) {
    s.pc + s.pbr * 0x1_0000 <= a <= s.pc + 2 + s.pbr * 0x1_0000
  }

  /** The index registers are as narrow as the X flag says, the instruction does not straddle the end
      of its bank, and no byte but the last one is copied onto it. */
  ghost predicate MoveOk(s: Cpu, up: bool) {
    && (X8(s) ==> s.x < 0x100 && s.y < 0x100)
    && s.pc <= 0xfffd
    && forall i :: 0 <= i < s.c ==> !InInstr(s, Dst(JobOf(s, up), i))
  }

  lemma {:induction false} CopiedElsewhere(m: Memory, j: Job, k: nat, a: Addr)
    requires forall i :: 0 <= i < k ==> Dst(j, i) != a
    ensures Load(Copied(m, j, k), a) == Load(m, a)
  {
    if k > 0 {
      CopiedElsewhere(m, j, k - 1, a);
    }
  }

  /** While C has not run out, the instruction is still there. */
  lemma InstrIntact(s: Cpu, up: bool, k: nat, a: Addr)
    requires MoveOk(s, up) && k <= s.c && InInstr(s, a)
    ensures Load(Copied(s.mem, JobOf(s, up), k), a) == Load(s.mem, a)
  {
    CopiedElsewhere(s.mem, JobOf(s, up), k, a);
  }

  /** The state after `k` executions while C has not run out: C counts down, the indices step in
      their width, the program counter has not moved. */
  ghost predicate Reached(s: Cpu, up: bool, k: nat, t: Cpu)
    requires k <= s.c
  {
    var j := JobOf(s, up);
    t == s.(c := s.c - k, x := Index(j, s.x, k), y := Index(j, s.y, k),
            dbr := if k == 0 then s.dbr else j.dst, mem := Copied(s.mem, j, k))
  }

  /** The state after the last execution. */
  function Finished(s: Cpu, up: bool): Cpu {
    var j := JobOf(s, up);
    s.(c := 0xffff, x := Index(j, s.x, s.c + 1), y := Index(j, s.y, s.c + 1), dbr := j.dst,
       pc := Low16(s.pc + 3), mem := Copied(s.mem, j, s.c + 1))
  }

  /** In the middle of a move the operands are still there. */
  lemma OperandsIntact(s: Cpu, up: bool, k: nat, t: Cpu)
    requires MoveOk(s, up) && k <= s.c && Reached(s, up, k, t)
    ensures var j := JobOf(s, up);
            && Fetch(t, s.pc + 1) == j.dst && Fetch(t, s.pc + 2) == j.src
            && t.pc == s.pc && t.c == s.c - k && X8(t) == (j.width == 0x100)
  {
    var pc := s.pc + s.pbr * 0x1_0000;
    InstrIntact(s, up, k, pc + 1);
    InstrIntact(s, up, k, pc + 2);
  }

  lemma ReachedStep(s: Cpu, up: bool, k: nat, t: Cpu)
    requires MoveOk(s, up) && k < s.c && Reached(s, up, k, t)
    ensures Reached(s, up, k + 1, Move(t, up))
  {
    var j := JobOf(s, up);
    OperandsIntact(s, up, k, t);
    assert Move(t, up) == MoveByte(t, up, j.dst, j.src);
  }

  lemma ReachedAtStart(s: Cpu, up: bool)
    ensures Reached(s, up, 0, s)
  {
  }

  lemma {:induction false} MovesState(s: Cpu, up: bool, k: nat)
    requires MoveOk(s, up) && k <= s.c
    ensures Reached(s, up, k, Moves(s, up, k))
  {
    if k > 0 {
      var t := Moves(s, up, k - 1);
      MovesState(s, up, k - 1);
      ReachedStep(s, up, k - 1, t);
      assert Moves(s, up, k) == Move(t, up);
    } else {
      ReachedAtStart(s, up);
    }
  }

  lemma LastMove(s: Cpu, up: bool, t: Cpu)
    requires MoveOk(s, up) && Reached(s, up, s.c, t)
    ensures Move(t, up) == Finished(s, up)
  {
    var j := JobOf(s, up);
    OperandsIntact(s, up, s.c, t);
    LastFetches(t, up, j.dst, j.src);
    assert MoveByte(t, up, j.dst, j.src).(pc := Low16(s.pc + 3)) == Finished(s, up);
  }

  /** The last execution fetches the same operands one by one. */
  lemma LastFetches(t: Cpu, up: bool, dst: byte, src: byte)
    requires t.c == 0 && t.pc <= 0xfffd && Fetch(t, t.pc + 1) == dst && Fetch(t, t.pc + 2) == src
    ensures Move(t, up) == MoveByte(t, up, dst, src).(pc := Low16(t.pc + 3))
  {
    assert IncPc(t, 1).pc == t.pc + 1 && IncPc(IncPc(t, 1), 1).pc == t.pc + 2;
  }

  /** One execution of a move under way, which still finds its opcode. */
  lemma MoveAdvances(s: Cpu, up: bool, k: nat, t: Cpu)
    requires MoveOk(s, up) && k <= s.c && Reached(s, up, k, t)
    ensures t.pc == s.pc && Fetch(t, t.pc) == Fetch(s, s.pc)
    ensures if k < s.c then Reached(s, up, k + 1, Move(t, up)) else Move(t, up) == Finished(s, up)
  {
    InstrIntact(s, up, k, s.pc + s.pbr * 0x1_0000);
    if k < s.c {
      ReachedStep(s, up, k, t);
    } else {
      LastMove(s, up, t);
    }
  }

  /** A block move started with C = n is executed n + 1 times, the program counter staying put till
      the last, and then n + 1 bytes have been copied, C has wrapped to 0xffff, the indices have gone
      n + 1 steps in their width, the data bank is the destination bank, the program counter is past
      the instruction, and nothing else has changed. */
  lemma MoveRuns(s: Cpu, up: bool)
    requires MoveOk(s, up)
    ensures forall k :: 0 <= k <= s.c ==> Moves(s, up, k).pc == s.pc && Moves(s, up, k).c == s.c - k
    ensures Moves(s, up, s.c + 1) == Finished(s, up)
  {
    forall k | 0 <= k <= s.c
      ensures Moves(s, up, k).pc == s.pc && Moves(s, up, k).c == s.c - k
    {
      MovesState(s, up, k);
    }
    MovesState(s, up, s.c);
    LastMove(s, up, Moves(s, up, s.c));
  }

  // ---------------------------------------------------------------- what has been copied

  /** No source byte is overwritten before it is read. */
  ghost predicate Safe(j: Job, k: nat) {
    forall i, l :: 0 <= i < l < k ==> Dst(j, i) != Src(j, l)
  }

  lemma SteppedWithin(r: word, up: bool, width: nat)
    requires (width == 0x100 || width == 0x1_0000) && r < width
    ensures Stepped(r, up, width == 0x100) ==
            if up then (if r + 1 == width then 0 else r + 1) else (if r == 0 then width - 1 else r - 1)
  {
  }

  /** One step changes the distance of two indices by nothing or by a whole width. */
  lemma DistanceStep(a: int, b: int, a': int, b': int, up: bool, width: int)
    requires 0 <= a < width && 0 <= b < width
    requires a' == if up then (if a + 1 == width then 0 else a + 1) else (if a == 0 then width - 1 else a - 1)
    requires b' == if up then (if b + 1 == width then 0 else b + 1) else (if b == 0 then width - 1 else b - 1)
    ensures 0 <= a' < width && 0 <= b' < width
    ensures a' - b' == a - b || a' - b' == a - b + width || a' - b' == a - b - width
  {
  }

  /** The source index follows the destination index at a constant distance, modulo the width. */
  lemma {:induction false} IndexShift(j: Job, i: nat)
    requires ValidJob(j)
    ensures Index(j, j.x, i) < j.width && Index(j, j.y, i) < j.width
    ensures var d := Index(j, j.x, i) - Index(j, j.y, i) - (j.x - j.y);
            d == 0 || d == j.width || d == 0 - j.width
  {
    if i > 0 {
      IndexShift(j, i - 1);
      var a, b := Index(j, j.x, i - 1), Index(j, j.y, i - 1);
      SteppedWithin(a, j.up, j.width);
      SteppedWithin(b, j.up, j.width);
      DistanceStep(a, b, Index(j, j.x, i), Index(j, j.y, i), j.up, j.width);
    }
  }

  /** Two executions write to the same place only when they also read from the same place. */
  lemma SameDstSameSrc(j: Job, i: nat, l: nat)
    requires ValidJob(j) && Dst(j, i) == Dst(j, l)
    ensures Src(j, i) == Src(j, l)
  {
    IndexShift(j, i);
    IndexShift(j, l);
  }

  /** Every destination byte of a safe move is the source byte as it was at the start. */
  lemma {:induction false} SafeMoveCopies(m: Memory, j: Job, k: nat, i: nat)
    requires ValidJob(j) && Safe(j, k) && i < k
    ensures Load(Copied(m, j, k), Dst(j, i)) == Load(m, Src(j, i))
  {
    if Dst(j, i) == Dst(j, k - 1) {
      CopiedElsewhere(m, j, k - 1, Src(j, k - 1));
      SameDstSameSrc(j, i, k - 1);
    } else {
      SafeMoveCopies(m, j, k - 1, i);
    }
  }

  /** A safe move is a memmove, wrapping indices included. */
  lemma SafeMoveIsMemmove(m: Memory, j: Job, k: nat)
    requires ValidJob(j) && Safe(j, k)
    ensures forall i :: 0 <= i < k ==> Load(Copied(m, j, k), Dst(j, i)) == Load(m, Src(j, i))
    ensures forall a: Addr :: (forall i :: 0 <= i < k ==> Dst(j, i) != a) ==>
              Load(Copied(m, j, k), a) == Load(m, a)
  {
    forall i | 0 <= i < k
      ensures Load(Copied(m, j, k), Dst(j, i)) == Load(m, Src(j, i))
    {
      SafeMoveCopies(m, j, k, i);
    }
    forall a: Addr | forall i :: 0 <= i < k ==> Dst(j, i) != a
      ensures Load(Copied(m, j, k), a) == Load(m, a)
    {
      CopiedElsewhere(m, j, k, a);
    }
  }

  /** Without wrapping, the index is the plain sum or difference. */
  lemma {:induction false} IndexPlain(j: Job, r: word, i: nat)
    requires ValidJob(j) && (if j.up then r + i < j.width else i <= r < j.width)
    ensures Index(j, r, i) == if j.up then r + i else r - i
  {
    if i > 0 {
      IndexPlain(j, r, i - 1);
    }
  }

  /** The move of `k` bytes runs through both index ranges without wrapping. */
  ghost predicate NoWrap(j: Job, k: nat) {
    if j.up then j.x + k <= j.width && j.y + k <= j.width else j.x + 1 >= k && j.y + 1 >= k
  }

  lemma PlainAddress(j: Job, k: nat, i: nat)
    requires ValidJob(j) && NoWrap(j, k) && i < k
    ensures Src(j, i) == (if j.up then j.x + i else j.x - i) + j.src * 0x1_0000
    ensures Dst(j, i) == (if j.up then j.y + i else j.y - i) + j.dst * 0x1_0000
  {
    IndexPlain(j, j.x, i);
    IndexPlain(j, j.y, i);
  }

  // ---------------------------------------------------------------- when a move is a memmove

  /** After `k` executions every destination byte is the source byte as it was at the start, whatever the
      memory held. */
  ghost predicate IsMemmove(j: Job, k: nat) {
    forall m: Memory, i :: 0 <= i < k ==> Load(Copied(m, j, k), Dst(j, i)) == Load(m, Src(j, i))
  }

  /** How many steps the source index is behind the destination index. */
  function Behind(j: Job): nat
    requires ValidJob(j)
  {
    var d := if j.up then j.y - j.x else j.x - j.y;
    if d < 0 then d + j.width else d
  }

  /** The index register after at most one round. */
  lemma {:induction false} IndexWraps(j: Job, r: word, i: nat)
    requires ValidJob(j) && r < j.width && i <= j.width
    ensures Index(j, r, i) == if j.up then (if r + i < j.width then r + i else r + i - j.width)
                              else (if i <= r then r - i else r - i + j.width)
  {
    if i > 0 {
      IndexWraps(j, r, i - 1);
      SteppedWithin(Index(j, r, i - 1), j.up, j.width);
    }
  }

  /** The source reaches the start of the destination after `Behind(j)` steps, and not before. */
  lemma BehindReaches(j: Job, l: nat)
    requires ValidJob(j) && l < j.width
    ensures Index(j, j.x, l) == j.y <==> l == Behind(j)
  {
    IndexWraps(j, j.x, l);
  }

  lemma MeetsBefore(j: Job, i: nat, l: nat)
    requires ValidJob(j) && Index(j, j.y, i + 1) == Index(j, j.x, l + 1)
    ensures Index(j, j.y, i) == Index(j, j.x, l)
  {
    IndexShift(j, i);
    IndexShift(j, l);
    SteppedWithin(Index(j, j.y, i), j.up, j.width);
    SteppedWithin(Index(j, j.x, l), j.up, j.width);
  }

  /** When a read meets an earlier write, so do the first write and the read that much later. */
  lemma {:induction false} MeetsFirst(j: Job, i: nat, l: nat)
    requires ValidJob(j) && i <= l && Index(j, j.y, i) == Index(j, j.x, l)
    ensures j.y == Index(j, j.x, l - i)
  {
    if i > 0 {
      MeetsBefore(j, i - 1, l - 1);
      MeetsFirst(j, i - 1, l - 1);
    }
  }

  lemma ReadsAhead(j: Job, k: nat, i: nat, l: nat)
    requires ValidJob(j) && i < l < k <= Behind(j)
    ensures Dst(j, i) != Src(j, l)
  {
    if Index(j, j.y, i) == Index(j, j.x, l) {
      MeetsFirst(j, i, l);
      BehindReaches(j, l - i);
    }
  }

  lemma SafeBehind(j: Job, k: nat)
    requires ValidJob(j) && k <= Behind(j)
    ensures Safe(j, k)
  {
    forall i, l | 0 <= i < l < k
      ensures Dst(j, i) != Src(j, l)
    {
      ReadsAhead(j, k, i, l);
    }
  }

  /** A move onto itself reads and writes the same bytes. */
  lemma {:induction false} SelfMove(m: Memory, j: Job, k: nat, a: Addr)
    requires ValidJob(j) && j.src == j.dst && j.x == j.y
    ensures Load(Copied(m, j, k), a) == Load(m, a)
  {
    if k > 0 {
      SelfMove(m, j, k - 1, a);
      SelfMove(m, j, k - 1, Src(j, k - 1));
      IndexShift(j, k - 1);
    }
  }

  /** What the first destination byte held is lost with the first execution: two memories that differ
      only there are the same from then on. */
  lemma {:induction false} FirstByteLost(m: Memory, v: byte, j: Job, k: nat, a: Addr)
    requires Src(j, 0) != Dst(j, 0) && k > 0
    ensures Load(Copied(Write(m, Dst(j, 0), v), j, k), a) == Load(Copied(m, j, k), a)
  {
    var m' := Write(m, Dst(j, 0), v);
    if k > 1 {
      FirstByteLost(m, v, j, k - 1, a);
      FirstByteLost(m, v, j, k - 1, Src(j, k - 1));
    } else {
      assert Copied(m, j, 0) == m && Copied(m', j, 0) == m';
    }
  }

  /** So a move that would have to copy that byte later is no memmove. */
  lemma OverlapIsNoMemmove(j: Job, k: nat, l: nat)
    requires ValidJob(j) && Src(j, 0) != Dst(j, 0) && 0 < l < k && Src(j, l) == Dst(j, 0)
    ensures !IsMemmove(j, k)
  {
    var m: Memory := seq(SPACE, _ => 0);
    var m' := Write(m, Dst(j, 0), 1);
    FirstByteLost(m, 1, j, k, Dst(j, l));
    assert Load(m, Src(j, l)) == 0 && Load(m', Src(j, l)) == 1;
    assert Load(Copied(m, j, k), Dst(j, l)) == Load(Copied(m', j, k), Dst(j, l));
  }

  /** For every number of bytes, indices that wrap included, a block move is a memmove if and only if it
      goes to another bank, or onto itself, or is over before the source index has come to where the
      destination index started. */
  lemma MemmoveIff(j: Job, k: nat)
    requires ValidJob(j)
    ensures IsMemmove(j, k) <==> j.src != j.dst || Behind(j) == 0 || k <= Behind(j)
  {
    if j.src != j.dst || k <= Behind(j) {
      if j.src == j.dst {
        SafeBehind(j, k);
      }
      forall m: Memory, i | 0 <= i < k
        ensures Load(Copied(m, j, k), Dst(j, i)) == Load(m, Src(j, i))
      {
        SafeMoveCopies(m, j, k, i);
      }
    } else if Behind(j) == 0 {
      forall m: Memory, i | 0 <= i < k
        ensures Load(Copied(m, j, k), Dst(j, i)) == Load(m, Src(j, i))
      {
        SelfMove(m, j, k, Dst(j, i));
        IndexShift(j, i);
      }
    } else {
      BehindReaches(j, Behind(j));
      OverlapIsNoMemmove(j, k, Behind(j));
    }
  }

  /** Within one bank and without wrapping: MVN is a memmove downwards, MVP upwards, and either is when the
      ranges do not meet; in all other cases it is not. */
  lemma NoWrapIff(j: Job, k: nat)
    requires ValidJob(j) && NoWrap(j, k) && j.src == j.dst
    ensures IsMemmove(j, k) <==>
              || (if j.up then j.y <= j.x else j.x <= j.y)
              || (if j.up then j.x + k <= j.y else j.y + k <= j.x)
  {
    MemmoveIff(j, k);
  }

  /** `i % d`, as it comes about */
  function Folded(i: nat, d: nat): nat
    requires 0 < d
  {
    if i < d then i else Folded(i - d, d)
  }

  lemma {:induction false} FoldedIsRemainder(i: nat, d: nat)
    requires 0 < d
    ensures Folded(i, d) == i % d
  {
    if i < d {
      RemainderOf(i, d, 0, i);
    } else {
      FoldedIsRemainder(i - d, d);
      ModShift(i, d);
    }
  }

  lemma ModShift(i: nat, d: nat)
    requires 0 < d <= i
    ensures (i - d) % d == i % d
  {
    var q, r := (i - d) / d, (i - d) % d;
    assert i == (q + 1) * d + r;
    RemainderOf(i, d, q + 1, r);
  }

  /** The destination starts `d` bytes into the source, in the direction of the move. */
  ghost predicate Overlaps(j: Job, d: nat) {
    j.src == j.dst && 0 < d && (if j.up then j.y == j.x + d else j.x == j.y + d)
  }

  /** What such a move does instead, MVN upwards as well as MVP downwards: it repeats the first `d` bytes of
      its source. */
  lemma OverlapFills(m: Memory, j: Job, k: nat, d: nat, i: nat)
    requires ValidJob(j) && NoWrap(j, k) && Overlaps(j, d) && i < k
    ensures Load(Copied(m, j, k), Dst(j, i)) == Load(m, Src(j, i % d))
  {
    Fills(m, j, k, d, i);
    FoldedIsRemainder(i, d);
  }

  lemma {:induction false} Fills(m: Memory, j: Job, k: nat, d: nat, i: nat)
    requires ValidJob(j) && NoWrap(j, k) && Overlaps(j, d) && i < k
    ensures Load(Copied(m, j, k), Dst(j, i)) == Load(m, Src(j, Folded(i, d)))
  {
    if i < k - 1 {
      Fills(m, j, k - 1, d, i);
      DstDiffers(j, k, i);
    } else if i < d {
      SourceIntact(m, j, i, d);
    } else {
      Fills(m, j, i, d, i - d);
      SourceIsEarlierDestination(j, i + 1, d, i);
    }
  }

  lemma DstDiffers(j: Job, k: nat, i: nat)
    requires ValidJob(j) && NoWrap(j, k) && i < k - 1
    ensures Dst(j, i) != Dst(j, k - 1)
  {
    PlainAddress(j, k, i);
    PlainAddress(j, k, k - 1);
  }

  lemma SourceIsEarlierDestination(j: Job, k: nat, d: nat, i: nat)
    requires ValidJob(j) && NoWrap(j, k) && Overlaps(j, d) && d <= i < k
    ensures Src(j, i) == Dst(j, i - d)
  {
    PlainAddress(j, k, i);
    PlainAddress(j, k, i - d);
  }

  /** Nothing is written to the first `d` bytes of the source. */
  lemma SourceIntact(m: Memory, j: Job, k: nat, d: nat)
    requires ValidJob(j) && NoWrap(j, k + 1) && Overlaps(j, d) && k < d
    ensures Load(Copied(m, j, k), Src(j, k)) == Load(m, Src(j, k))
  {
    PlainAddress(j, k + 1, k);
    forall i | 0 <= i < k
      ensures Dst(j, i) != Src(j, k)
    {
      PlainAddress(j, k + 1, i);
    }
    CopiedElsewhere(m, j, k, Src(j, k));
  }
}
