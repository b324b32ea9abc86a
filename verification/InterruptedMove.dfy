/**
 A block move interrupted between its executions, any number of times, ends like the uninterrupted
 one.
 */
module InterruptedMove {
  import opened Basics
  import opened BlockMove
  import opened Interrupts65816
  import opened Wdc65816

  /** What happens next: the instruction is executed once more, or an interrupt is served by a handler
      that gets to its RTI in state `h`. */
  datatype Event = Iterate | Service(vector: Vector, h: Cpu)

  function Step(s: Cpu, up: bool, e: Event): Cpu {
    match e
    case Iterate => Move(s, up)
    case Service(_, h) => Rti(h)
  }

  /** How many of the first `n` events are executions of the instruction. */
  function Iterations(events: seq<Event>, n: nat): nat
    requires n <= |events|
  {
    if n == 0 then 0 else Iterations(events, n - 1) + if events[n - 1].Iterate? then 1 else 0
  }

  // ---------------------------------------------------------------- what handlers may do

  /** The bytes the move depends on: the instruction, the sources and the destinations. */
  ghost predicate Guarded(s: Cpu, up: bool, a: nat) {
    var j := JobOf(s, up);
    || InInstr(s, a)
    || exists i :: 0 <= i <= s.c && (a == Src(j, i) || a == Dst(j, i))
  }

  /** The handler keeps C, X, Y and SP, does not touch the saved frame or a guarded byte, and the frame
      itself lies elsewhere. The data bank, the direct page, the flags and the rest of memory are free. */
  ghost predicate Polite(s: Cpu, up: bool, t: Cpu, k: Vector, h: Cpu) {
    var e := Interrupt(t, k);
    && HandlerDone(t.sp, e, h) && h.c == e.c
    && forall a: Addr :: Guarded(s, up, a) ==> !InFrame(t.emul, t.sp, a) && Load(h.mem, a) == Load(e.mem, a)
  }

  /** A run: `states[i]` is what the first `i` events lead to, and every handler is polite in the state
      it interrupts. */
  ghost predicate IsRun(s: Cpu, up: bool, events: seq<Event>, states: seq<Cpu>) {
    && |states| == |events| + 1 && states[0] == s
    && forall i :: 0 <= i < |events| ==> Follows(s, up, states[i], events[i], states[i + 1])
  }

  ghost predicate Follows(s: Cpu, up: bool, t: Cpu, e: Event, t': Cpu) {
    && t' == Step(t, up, e)
    && (e.Service? ==> Polite(s, up, t, e.vector, e.h))
  }

  // ---------------------------------------------------------------- indistinguishable states

  /** The registers agree, the flags as a program can observe them. The data bank is left out: every
      execution of the move loads it. */
  ghost predicate SameRegisters(t: Cpu, u: Cpu) {
    && t.c == u.c && t.x == u.x && t.y == u.y && t.sp == u.sp && t.pc == u.pc && t.pbr == u.pbr
    && t.emul == u.emul && t.p == u.p && Sign(t) == Sign(u) && Zero(t) == Zero(u)
  }

  ghost predicate SameMemory(s: Cpu, up: bool, t: Cpu, u: Cpu) {
    forall a: Addr :: Guarded(s, up, a) ==> Load(t.mem, a) == Load(u.mem, a)
  }

  /** In the middle of the move: `k` executions done, the instruction intact. */
  ghost predicate Midway(s: Cpu, up: bool, k: nat, t: Cpu) {
    && k <= s.c && t.pc == s.pc && t.pbr == s.pbr && t.emul == s.emul && t.p == s.p && t.c == s.c - k
    && t.x == Index(JobOf(s, up), s.x, k) && t.y == Index(JobOf(s, up), s.y, k)
    && forall a: Addr :: InInstr(s, a) ==> Load(t.mem, a) == Load(s.mem, a)
  }

  /** One execution reads its banks from the instruction and copies one guarded byte to another. */
  lemma MoveMidway(s: Cpu, up: bool, k: nat, t: Cpu)
    requires MoveOk(s, up) && Midway(s, up, k, t)
    ensures var j := JobOf(s, up);
            Move(t, up) == t.(
              c := Low16(t.c - 1), x := Index(j, s.x, k + 1), y := Index(j, s.y, k + 1), dbr := j.dst,
              pc := if t.c == 0 then Low16(t.pc + 3) else t.pc,
              mem := Write(t.mem, Dst(j, k), Load(t.mem, Src(j, k))))
  {
    var pc := s.pc + s.pbr * 0x1_0000;
    assert InInstr(s, pc + 1) && InInstr(s, pc + 2);
  }

  lemma MoveSame(s: Cpu, up: bool, k: nat, t: Cpu, u: Cpu)
    requires MoveOk(s, up) && Midway(s, up, k, t) && Midway(s, up, k, u)
    requires SameRegisters(t, u) && SameMemory(s, up, t, u)
    ensures SameRegisters(Move(t, up), Move(u, up)) && SameMemory(s, up, Move(t, up), Move(u, up))
    ensures Move(t, up).dbr == Move(u, up).dbr
  {
    MoveMidway(s, up, k, t);
    MoveMidway(s, up, k, u);
    assert Guarded(s, up, Src(JobOf(s, up), k));
  }

  /** A polite handler returns to a state that cannot be told from the interrupted one. */
  lemma ServiceSame(s: Cpu, up: bool, u: Cpu, k: Vector, h: Cpu)
    requires ModeOk(u) && !u.emul && Polite(s, up, u, k, h)
    ensures SameRegisters(u, Rti(h)) && SameMemory(s, up, u, Rti(h))
  {
    InterruptReturns(u, k, h);
    EntrySaves(u, k);
  }

  lemma ModeOkSame(t: Cpu, u: Cpu)
    requires ModeOk(t) && SameRegisters(t, u)
    ensures ModeOk(u)
  {
  }

  lemma StraightMidway(s: Cpu, up: bool, k: nat)
    requires MoveOk(s, up) && k <= s.c
    ensures Midway(s, up, k, Moves(s, up, k))
    ensures Moves(s, up, k).sp == s.sp
  {
    MovesState(s, up, k);
    forall a: Addr | InInstr(s, a)
      ensures Load(Copied(s.mem, JobOf(s, up), k), a) == Load(s.mem, a)
    {
      InstrIntact(s, up, k, a);
    }
  }

  lemma MidwaySame(s: Cpu, up: bool, k: nat, t: Cpu, u: Cpu)
    requires Midway(s, up, k, t) && SameRegisters(t, u) && SameMemory(s, up, t, u)
    ensures Midway(s, up, k, u)
  {
  }

  lemma StraightModeOk(s: Cpu, up: bool, k: nat)
    requires MoveOk(s, up) && ModeOk(s) && k <= s.c
    ensures ModeOk(Moves(s, up, k))
  {
    MovesState(s, up, k);
    if X8(s) {
      IndexShift(JobOf(s, up), k);
    }
  }

  // ---------------------------------------------------------------- the theorem

  ghost predicate InStepWith(s: Cpu, up: bool, k: nat, u: Cpu) {
    SameRegisters(Moves(s, up, k), u) && SameMemory(s, up, Moves(s, up, k), u)
  }

  lemma StepInStep(s: Cpu, up: bool, k: nat, u: Cpu, e: Event)
    requires MoveOk(s, up) && ModeOk(s) && !s.emul
    requires k <= s.c && InStepWith(s, up, k, u)
    requires e.Service? ==> Polite(s, up, u, e.vector, e.h)
    ensures e.Iterate? ==> InStepWith(s, up, k + 1, Step(u, up, e))
    ensures e.Service? ==> InStepWith(s, up, k, Step(u, up, e))
  {
    var t := Moves(s, up, k);
    StraightMidway(s, up, k);
    StraightModeOk(s, up, k);
    if e.Iterate? {
      MidwaySame(s, up, k, t, u);
      MoveSame(s, up, k, t, u);
    } else {
      ModeOkSame(t, u);
      ServiceSame(s, up, u, e.vector, e.h);
      SameTransitive(s, up, t, u, Rti(e.h));
    }
  }

  lemma SameTransitive(s: Cpu, up: bool, t: Cpu, u: Cpu, v: Cpu)
    requires SameRegisters(t, u) && SameMemory(s, up, t, u)
    requires SameRegisters(u, v) && SameMemory(s, up, u, v)
    ensures SameRegisters(t, v) && SameMemory(s, up, t, v)
  {
  }

  /** As long as the count has not run out, the interrupted run is where the uninterrupted one is after
      the same number of executions. */
  lemma {:induction false} InStep(s: Cpu, up: bool, events: seq<Event>, states: seq<Cpu>, n: nat)
    requires MoveOk(s, up) && ModeOk(s) && !s.emul && IsRun(s, up, events, states)
    requires n <= |events| && Iterations(events, n) <= s.c
    ensures InStepWith(s, up, Iterations(events, n), states[n])
  {
    if n > 0 {
      InStep(s, up, events, states, n - 1);
      var e := events[n - 1];
      assert Follows(s, up, states[n - 1], e, states[n - 1 + 1]);
      StepInStep(s, up, Iterations(events, n - 1), states[n - 1], e);
    }
  }

  /** A native-mode move interrupted any number of times before its last execution ends with the
      registers of the uninterrupted move, and with the same bytes in the whole destination, in the
      source and in the instruction. */
  lemma InterruptedMoveCompletes(s: Cpu, up: bool, events: seq<Event>, states: seq<Cpu>)
    requires MoveOk(s, up) && ModeOk(s) && !s.emul && IsRun(s, up, events, states)
    requires Iterations(events, |events|) == s.c
    ensures var t, u := Moves(s, up, s.c + 1), Step(states[|events|], up, Iterate);
            && SameRegisters(t, u) && t.dbr == u.dbr && SameMemory(s, up, t, u)
            && u.c == 0xffff && u.pc == Low16(s.pc + 3) && u.sp == s.sp && u.p == s.p
  {
    InStep(s, up, events, states, |events|);
    var t, u := Moves(s, up, s.c), states[|events|];
    StraightMidway(s, up, s.c);
    MidwaySame(s, up, s.c, t, u);
    MoveSame(s, up, s.c, t, u);
    MoveRuns(s, up);
  }
}
