/**
 The ACIA under the dispatch loop of the CPU: its two callbacks meet the loop's contract, and the loop
 takes chip and alarm context together through the steps of the state machine, whatever other devices
 have scheduled beside it.
 */
module AciaAlarms {
  import opened AciaChip
  import opened AciaSpec
  import opened Alarms
  import opened AlarmSpec
  import opened Basics
  import R = AciaRuns

  // ---------------------------------------------------------------- one alarm of the chip

  /** The schedule holds the chip's two alarms as the chip has them, and room for each of them. */
  ghost predicate Wired<A>(m: Schedule<A>, txAlarm: A, rxAlarm: A, s: State) {
    && txAlarm != rxAlarm
    && EntryOf(m, txAlarm) == s.tx.pending && EntryOf(m, rxAlarm) == s.rx.pending
    && (txAlarm in m || |m| < MAX_PENDING) && (rxAlarm in m || |m| < MAX_PENDING)
  }

  /** The alarm call that takes one alarm of the chip where it should be. */
  function Call<A>(a: A, after: Option<nat>): Op<A>
    requires after.Some? ==> after.value <= CLOCK_MAX
  {
    if after.Some? then SetOp(a, after.value) else UnsetOp(a)
  }

  /** It does so, touches no other alarm, and is what the dispatch loop accepts of a callback. */
  lemma OneCall<A>(m: Schedule<A>, a: A, after: Option<nat>, now: Clock)
    requires a in m || |m| < MAX_PENDING
    requires after.Some? ==> now < after.value <= CLOCK_MAX
    ensures CallbackOps([Call(a, after)], a, now)
    ensures var m' := ApplyAll(m, [Call(a, after)]);
            && EntryOf(m', a) == after && m' - {a} == m - {a}
            && forall b :: b != a ==> EntryOf(m', b) == EntryOf(m, b)
  {
    var op := Call(a, after);
    ApplyOne(m, op);
    assert [op][0].alarm == a;
    OneEntry(m, a, after);
  }

  /** What is the same without `a` is the same without more. */
  lemma LessAgain<A>(m: Schedule<A>, m': Schedule<A>, a: A, own: set<A>)
    requires a in own && m - {a} == m' - {a}
    ensures m - own == m' - own
  {
    assert m - own == m - {a} - own;
    assert m' - own == m' - {a} - own;
  }

  lemma OneEntry<A>(m: Schedule<A>, a: A, after: Option<nat>)
    requires (a in m || |m| < MAX_PENDING) && (after.Some? ==> after.value <= CLOCK_MAX)
    ensures var m' := Apply(m, Call(a, after));
            && EntryOf(m', a) == after && m' - {a} == m - {a}
            && forall b :: b != a ==> EntryOf(m', b) == EntryOf(m, b)
  {
  }

  lemma ApplyOne<A>(m: Schedule<A>, op: Op<A>)
    ensures ApplyAll(m, [op]) == Apply(m, op)
  {
    assert [op][..0] == [];
    assert ApplyAll(m, [op][..0]) == m;
  }

  /** The transmit callback serves its own alarm only, never sets it for a clock already reached, and
      leaves the schedule as the chip's next state has it. */
  lemma TxCallback<A>(m: Schedule<A>, txAlarm: A, rxAlarm: A, cfg: Config, s: State, now: nat)
    requires Wired(m, txAlarm, rxAlarm, s) && InTime(now)
    ensures FireTx(cfg, s, now).tx.pending.Some? ==> FireTx(cfg, s, now).tx.pending.value <= CLOCK_MAX
    ensures var t := FireTx(cfg, s, now);
            var ops := [Call(txAlarm, t.tx.pending)];
            var m' := ApplyAll(m, ops);
            && CallbackOps(ops, txAlarm, now) && m' - {txAlarm, rxAlarm} == m - {txAlarm, rxAlarm}
            && EntryOf(m', txAlarm) == t.tx.pending && EntryOf(m', rxAlarm) == t.rx.pending
  {
    var after := FireTx(cfg, s, now).tx.pending;
    OneCall(m, txAlarm, after, now);
    LessAgain(m, ApplyAll(m, [Call(txAlarm, after)]), txAlarm, {txAlarm, rxAlarm});
  }

  /** So does the receive callback. */
  lemma RxCallback<A>(m: Schedule<A>, txAlarm: A, rxAlarm: A, cfg: Config, s: State, now: nat, input: Option<byte>)
    requires Wired(m, txAlarm, rxAlarm, s) && InTime(now)
    ensures FireRx(cfg, s, now, input).rx.pending.Some? ==> FireRx(cfg, s, now, input).rx.pending.value <= CLOCK_MAX
    ensures var t := FireRx(cfg, s, now, input);
            var ops := [Call(rxAlarm, t.rx.pending)];
            var m' := ApplyAll(m, ops);
            && CallbackOps(ops, rxAlarm, now) && m' - {txAlarm, rxAlarm} == m - {txAlarm, rxAlarm}
            && EntryOf(m', txAlarm) == t.tx.pending && EntryOf(m', rxAlarm) == t.rx.pending
  {
    var after := FireRx(cfg, s, now, input).rx.pending;
    OneCall(m, rxAlarm, after, now);
    LessAgain(m, ApplyAll(m, [Call(rxAlarm, after)]), rxAlarm, {txAlarm, rxAlarm});
  }

  /** A schedule is what it has for the two alarms and for all others. */
  lemma SameSchedule<A>(m: Schedule<A>, m': Schedule<A>, a: A, b: A)
    requires EntryOf(m, a) == EntryOf(m', a) && EntryOf(m, b) == EntryOf(m', b) && m - {a, b} == m' - {a, b}
    ensures m == m'
  {
    forall c
      ensures EntryOf(m, c) == EntryOf(m', c)
    {
      if c != a && c != b {
        assert EntryOf(m - {a, b}, c) == EntryOf(m, c) && EntryOf(m' - {a, b}, c) == EntryOf(m', c);
      }
    }
    assert forall c :: c in m ==> EntryOf(m, c).Some?;
    assert forall c :: c in m' ==> EntryOf(m', c).Some?;
    assert m.Keys == m'.Keys;
  }

  // ---------------------------------------------------------------- one round of the loop

  /** What callbacks of other devices may do, at any clock up to `limit`: what the loop needs of them, on alarms
      of the context that are not the chip's. */
  ghost predicate Polite(chip: Acia, others: Callback<Alarm>, limit: Clock)
    reads chip.context`members
  {
    forall n, a, s: Clock, o: Clock ::
      a in chip.context.members && a != chip.alarmTx && a != chip.alarmRx && s + o <= limit ==>
        && CallbackOps(others(n, Event(a, s, o)), a, s + o)
        && forall op :: op in others(n, Event(a, s, o)) ==>
             op.alarm in chip.context.members - {chip.alarmTx, chip.alarmRx}
  }

  /** The chip's event when its alarm is dispatched. */
  function Firing<A(==)>(e: Event<A>, txAlarm: A, rxAlarm: A, input: Option<byte>): seq<R.Stamped>
    requires ClockOf(e) > 0
  {
    if e.alarm == txAlarm then [R.At(ClockOf(e), R.TxAlarm)]
    else if e.alarm == rxAlarm then [R.At(ClockOf(e), R.RxAlarm(input))]
    else []
  }

  method ServeTx(chip: Acia, now: Tick) returns (ghost ops: seq<Op<Alarm>>)
    requires chip.Valid() && InTime(now)
    modifies chip, chip.context`numPending, chip.context`table, chip.context`pending, chip.context`nextClk,
             chip.context`nextIdx, chip.context.pendingAlarms, chip.context.members`pendingIdx
    ensures chip.Valid() && chip.Abs() == FireTx(chip.cfg, old(chip.Abs()), now)
    ensures CallbackOps(ops, chip.alarmTx, now) && !Names(ops, chip.alarmRx)
    ensures chip.context.pending == ApplyAll(old(chip.context.pending), ops)
  {
    ghost var s, m := chip.Abs(), chip.context.pending;
    chip.context.HasRoom(chip.alarmTx);
    chip.context.HasRoom(chip.alarmRx);
    TxCallback(m, chip.alarmTx, chip.alarmRx, chip.cfg, s, now);
    ops := [Call(chip.alarmTx, FireTx(chip.cfg, s, now).tx.pending)];
    var _ := chip.IntTx(now);
    SameSchedule(chip.context.pending, ApplyAll(m, ops), chip.alarmTx, chip.alarmRx);
  }

  method ServeRx(chip: Acia, now: Tick, input: Option<byte>) returns (ghost ops: seq<Op<Alarm>>)
    requires chip.Valid() && InTime(now)
    modifies chip, chip.context`numPending, chip.context`table, chip.context`pending, chip.context`nextClk,
             chip.context`nextIdx, chip.context.pendingAlarms, chip.context.members`pendingIdx
    ensures chip.Valid() && chip.Abs() == FireRx(chip.cfg, old(chip.Abs()), now, input)
    ensures CallbackOps(ops, chip.alarmRx, now) && !Names(ops, chip.alarmTx)
    ensures chip.context.pending == ApplyAll(old(chip.context.pending), ops)
  {
    ghost var s, m := chip.Abs(), chip.context.pending;
    chip.context.HasRoom(chip.alarmTx);
    chip.context.HasRoom(chip.alarmRx);
    RxCallback(m, chip.alarmTx, chip.alarmRx, chip.cfg, s, now, input);
    ops := [Call(chip.alarmRx, FireRx(chip.cfg, s, now, input).rx.pending)];
    chip.IntRx(now, input);
    SameSchedule(chip.context.pending, ApplyAll(m, ops), chip.alarmTx, chip.alarmRx);
  }

  method ServeOther(chip: Acia, ops: seq<Op<Alarm>>)
    requires chip.Valid()
    requires forall op :: op in ops ==> op.alarm in chip.context.members - {chip.alarmTx, chip.alarmRx}
    modifies chip.context`numPending, chip.context`table, chip.context`pending, chip.context`nextClk,
             chip.context`nextIdx, chip.context.pendingAlarms, chip.context.members`pendingIdx
    ensures chip.Valid() && chip.Abs() == old(chip.Abs())
    ensures !Names(ops, chip.alarmTx) && !Names(ops, chip.alarmRx)
    ensures chip.context.pending == ApplyAll(old(chip.context.pending), ops)
  {
    assert forall i :: 0 <= i < |ops| ==> ops[i] in ops;
    ApplyAllEffect(chip.context.pending, ops, chip.alarmTx);
    ApplyAllEffect(chip.context.pending, ops, chip.alarmRx);
    chip.context.Run(ops);
  }

  /** The callback of alarm `a`: the chip's, when it is one of its two. */
  method Serve(chip: Acia, a: Alarm, now: Tick, calls: seq<Op<Alarm>>, input: Option<byte>)
    returns (ghost ops: seq<Op<Alarm>>)
    requires chip.Valid() && InTime(now)
    requires a != chip.alarmTx && a != chip.alarmRx ==>
               && CallbackOps(calls, a, now)
               && forall op :: op in calls ==> op.alarm in chip.context.members - {chip.alarmTx, chip.alarmRx}
    modifies chip, chip.context`numPending, chip.context`table, chip.context`pending, chip.context`nextClk,
             chip.context`nextIdx, chip.context.pendingAlarms, chip.context.members`pendingIdx
    ensures chip.Valid() && CallbackOps(ops, a, now)
    ensures chip.context.pending == ApplyAll(old(chip.context.pending), ops)
    ensures (a != chip.alarmTx ==> !Names(ops, chip.alarmTx)) && (a != chip.alarmRx ==> !Names(ops, chip.alarmRx))
    ensures chip.Abs() == if a == chip.alarmTx then FireTx(chip.cfg, old(chip.Abs()), now)
                          else if a == chip.alarmRx then FireRx(chip.cfg, old(chip.Abs()), now, input)
                          else old(chip.Abs())
  {
    if a == chip.alarmTx {
      ops := ServeTx(chip, now);
    } else if a == chip.alarmRx {
      ops := ServeRx(chip, now, input);
    } else {
      ops := calls;
      ServeOther(chip, calls);
    }
  }

  /** `alarm_context_dispatch` with the callback it calls */
  method Round(chip: Acia, now: Tick, others: Callback<Alarm>, n: nat, input: Option<byte>)
    returns (e: Event<Alarm>, ghost ops: seq<Op<Alarm>>)
    requires chip.Valid() && InTime(now) && chip.context.nextClk <= now && Polite(chip, others, now)
    modifies chip, chip.context`numPending, chip.context`table, chip.context`pending, chip.context`nextClk,
             chip.context`nextIdx, chip.context.pendingAlarms, chip.context.members`pendingIdx
    ensures chip.Valid() && ClockOf(e) == now
    ensures ServesNext(old(chip.context.pending), e, now) && CallbackOps(ops, e.alarm, now)
    ensures chip.context.pending == ApplyAll(old(chip.context.pending), ops)
    ensures e.alarm != chip.alarmTx ==> !Names(ops, chip.alarmTx)
    ensures e.alarm != chip.alarmRx ==> !Names(ops, chip.alarmRx)
    ensures var firing := Firing(e, chip.alarmTx, chip.alarmRx, input);
            && R.Legal(chip.cfg, old(chip.Abs()), firing)
            && chip.Abs() == R.After(chip.cfg, old(chip.Abs()), firing)
  {
    ghost var s := chip.Abs();
    var a, offset := chip.context.Dispatch(now);
    e := Event(a, now - offset, offset);
    assert ClockOf(e) == now;
    ops := Serve(chip, a, now, others(n, e), input);
    R.AfterOne(chip.cfg, s, Firing(e, chip.alarmTx, chip.alarmRx, input));
  }

  // ---------------------------------------------------------------- the loop

  /** Callbacks that make the given calls, one after the other. */
  function Script<A>(calls: seq<seq<Op<A>>>): Callback<A> {
    (n: nat, e: Event<A>) => if n < |calls| then calls[n] else []
  }

  /** Only the callbacks that have been called matter. */
  lemma {:induction false} SameCallbacks<A>(
    m: Schedule<A>, served: seq<Event<A>>, f: Callback<A>, g: Callback<A>, from: Clock)
    requires forall n: nat, e :: n < |served| ==> f(n, e) == g(n, e)
    ensures After(m, served, f) == After(m, served, g)
    ensures Dispatched(m, served, f, from) <==> Dispatched(m, served, g, from)
  {
    if served != [] {
      SameCallbacks(m, served[..|served| - 1], f, g, from);
    }
  }

  /** The chip's events in a run of the loop, in order. */
  function Firings<A(==)>(
    served: seq<Event<A>>, txAlarm: A, rxAlarm: A, input: nat -> Option<byte>): seq<R.Stamped>
    requires forall i :: 0 <= i < |served| ==> ClockOf(served[i]) > 0
  {
    if served == [] then []
    else
      var front, last := served[..|served| - 1], served[|served| - 1];
      Firings(front, txAlarm, rxAlarm, input) + Firing(last, txAlarm, rxAlarm, input(|front|))
  }

  /** `PROCESS_ALARMS` with the ACIA among the devices: while the clock has reached the next pending one,
      dispatch, and let it go on, but not beyond `limit`. `input` is what the driver has when it is asked
      during dispatch number n. */
  method ProcessAlarms(
      chip: Acia, now: Tick, others: Callback<Alarm>, input: nat -> Option<byte>, delay: Delay, limit: Tick)
    returns (served: seq<Event<Alarm>>, ghost calls: seq<seq<Op<Alarm>>>, clk: Tick)
    requires chip.Valid() && now <= limit && InTime(limit) && Polite(chip, others, limit) && Bounded(delay, limit)
    modifies chip, chip.context`numPending, chip.context`table, chip.context`pending, chip.context`nextClk,
             chip.context`nextIdx, chip.context.pendingAlarms, chip.context.members`pendingIdx
    ensures chip.Valid() && now <= clk <= limit && Due(chip.context.pending, clk) == {}
    ensures Dispatched(old(chip.context.pending), served, Script(calls), now) && Clocked(served, delay, now, clk)
    ensures chip.context.pending == After(old(chip.context.pending), served, Script(calls))
    ensures forall i :: 0 <= i < |served| ==> ClockOf(served[i]) > 0
    ensures var run := Firings(served, chip.alarmTx, chip.alarmRx, input);
            && R.Legal(chip.cfg, old(chip.Abs()), run)
            && chip.Abs() == R.After(chip.cfg, old(chip.Abs()), run)
    ensures OwnFirings(served, chip.alarmTx, chip.alarmRx, old(chip.context.pending), now)
    ensures R.Mirror(chip.cfg, old(chip.Abs())) ==> R.Mirror(chip.cfg, chip.Abs()) && chip.InStep()
  {
    ghost var s, m := chip.Abs(), chip.context.pending;
    served, calls, clk := [], [], now;
    while clk >= chip.context.nextClk
      invariant chip.Valid() && |calls| == |served| && now <= Reached(now, served) <= clk <= limit
      invariant Loop(m, served, calls, now, chip.alarmTx, chip.alarmRx) && Clocked(served, delay, now, clk)
      invariant chip.context.pending == After(m, served, Script(calls))
      invariant Fires(chip.cfg, s, served, chip.alarmTx, chip.alarmRx, input, chip.Abs())
      decreases limit - clk, Due(chip.context.pending, clk)
    {
      PoliteUpTo(chip, others, clk, limit);
      var e, ops := Round(chip, clk, others, |served|, input(|served|));
      LoopStep(m, served, calls, e, ops, now, clk, chip.alarmTx, chip.alarmRx);
      FiringStep(chip.cfg, s, served, e, chip.alarmTx, chip.alarmRx, input);
      ClockedOn(served, e, delay, now, clk);
      clk := delay(|served|, clk);
      served, calls := served + [e], calls + [ops];
    }
    CacheIsNext(chip.context.table, chip.context.nextClk, chip.context.nextIdx);
    LoopEnds(m, served, calls, now, chip.alarmTx, chip.alarmRx);
    if R.Mirror(chip.cfg, s) {
      R.MirrorAfter(chip.cfg, s, Firings(served, chip.alarmTx, chip.alarmRx, input));
    }
  }

  /** The dispatches have taken the chip from `s` to `t`. */
  ghost predicate Fires<A>(
    cfg: Config, s: State, served: seq<Event<A>>, txAlarm: A, rxAlarm: A, input: nat -> Option<byte>, t: State)
  {
    && (forall i :: 0 <= i < |served| ==> ClockOf(served[i]) > 0)
    && var run := Firings(served, txAlarm, rxAlarm, input);
       R.Legal(cfg, s, run) && t == R.After(cfg, s, run)
  }

  lemma PoliteUpTo(chip: Acia, others: Callback<Alarm>, clk: Clock, limit: Clock)
    requires Polite(chip, others, limit) && clk <= limit
    ensures Polite(chip, others, clk)
  {
  }

  /** Each of the two alarms is served as scheduled at entry if it was due then, and only then, and once. */
  ghost predicate OwnFirings<A>(served: seq<Event<A>>, txAlarm: A, rxAlarm: A, m: Schedule<A>, from: Clock) {
    && (ServesBy(served, txAlarm, from) <==> txAlarm in Due(m, from))
    && (ServesBy(served, rxAlarm, from) <==> rxAlarm in Due(m, from))
    && forall i, j :: 0 <= i < j < |served| && served[j].scheduled <= from ==> served[i].alarm != served[j].alarm
  }

  /** The loop so far: a run of dispatches in which nobody else touches the chip's alarms. */
  ghost predicate Loop<A>(
    m: Schedule<A>, served: seq<Event<A>>, calls: seq<seq<Op<A>>>, from: Clock, txAlarm: A, rxAlarm: A)
  {
    && Dispatched(m, served, Script(calls), from)
    && LeftAlone(served, Script(calls), txAlarm) && LeftAlone(served, Script(calls), rxAlarm)
  }

  lemma LoopStep<A>(
    m: Schedule<A>, served: seq<Event<A>>, calls: seq<seq<Op<A>>>, e: Event<A>, ops: seq<Op<A>>, from: Clock,
    clk: Clock, txAlarm: A, rxAlarm: A)
    requires |calls| == |served| && Loop(m, served, calls, from, txAlarm, rxAlarm)
    requires ClockOf(e) == clk && from <= Reached(from, served) <= clk
    requires ServesNext(After(m, served, Script(calls)), e, clk) && CallbackOps(ops, e.alarm, clk)
    requires (e.alarm != txAlarm ==> !Names(ops, txAlarm)) && (e.alarm != rxAlarm ==> !Names(ops, rxAlarm))
    ensures Loop(m, served + [e], calls + [ops], from, txAlarm, rxAlarm) && Reached(from, served + [e]) == clk
    ensures After(m, served + [e], Script(calls + [ops])) == ApplyAll(After(m, served, Script(calls)), ops)
    ensures Due(After(m, served + [e], Script(calls + [ops])), clk) < Due(After(m, served, Script(calls)), clk)
  {
    var f, g := Script(calls), Script(calls + [ops]);
    SameCallbacks(m, served, f, g, from);
    assert g(|served|, e) == ops;
    ExtendDispatched(m, served, e, g, from);
    CallbackShrinksDue(After(m, served, f), ops, e.alarm, clk);
    forall i | 0 <= i < |served|
      ensures g(i, served[i]) == f(i, served[i])
    {
    }
  }

  lemma LoopEnds<A>(
    m: Schedule<A>, served: seq<Event<A>>, calls: seq<seq<Op<A>>>, from: Clock, txAlarm: A, rxAlarm: A)
    requires Loop(m, served, calls, from, txAlarm, rxAlarm) && Due(After(m, served, Script(calls)), from) == {}
    ensures OwnFirings(served, txAlarm, rxAlarm, m, from)
  {
    ServedInOrder(m, served, Script(calls), from);
    forall a | a in {txAlarm, rxAlarm} && a in Due(m, from)
      ensures ServesBy(served, a, from)
    {
      DueUntilServed(m, served, Script(calls), from, a);
    }
  }

  lemma FiringStep<A>(
    cfg: Config, s: State, served: seq<Event<A>>, e: Event<A>, txAlarm: A, rxAlarm: A,
    input: nat -> Option<byte>)
    requires ClockOf(e) > 0
    ensures forall t :: Fires(cfg, s, served, txAlarm, rxAlarm, input, t) ==>
              var firing := Firing(e, txAlarm, rxAlarm, input(|served|));
              R.Legal(cfg, t, firing) ==>
                Fires(cfg, s, served + [e], txAlarm, rxAlarm, input, R.After(cfg, t, firing))
  {
    assert (served + [e])[..|served + [e]| - 1] == served;
    if forall i :: 0 <= i < |served| ==> ClockOf(served[i]) > 0 {
      var run := Firings(served, txAlarm, rxAlarm, input);
      var firing := Firing(e, txAlarm, rxAlarm, input(|served|));
      R.AfterAfter(cfg, s, run, firing);
      R.LegalAfter(cfg, s, run, firing);
    }
  }
}
