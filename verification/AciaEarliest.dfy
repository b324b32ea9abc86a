/**
 How soon the ACIA can hand the next byte to the serial driver. From every state there is an earliest
 clock, which depends on the device, DTR, the waiting byte, the transmit alarm and how close together a
 program can write to the chip; what keeps the character time, and what does not, follows from it.
 */
module AciaEarliest {
  import opened AciaPacing
  import opened AciaRate
  import opened AciaRuns
  import opened AciaSpec
  import opened Basics

  // ---------------------------------------------------------------- when a program can write

  /** The first clock at which an event does something: a read-modify-write access writes back one cycle
      before its write. */
  function StartsAt(e: Stamped): nat {
    if e.ev.StoreEv? && e.ev.rmw then e.now - 1 else e.now
  }

  /** The first clock at which a program can write again: `gap` cycles after its last write, or `next` when
      the run holds none. */
  function NextWrite(gap: nat, next: nat, run: seq<Stamped>): nat {
    if run == [] then next
    else if run[|run| - 1].ev.StoreEv? then run[|run| - 1].now + gap
    else NextWrite(gap, next, run[..|run| - 1])
  }

  /** The clock does not run backwards, and writes are `gap` cycles apart at least. Alarms may be served late;
      their callbacks are told by how much. */
  ghost predicate Spread(gap: nat, next: nat, now: nat, run: seq<Stamped>) {
    run == []
    || (var front, e := run[..|run| - 1], run[|run| - 1];
        && Spread(gap, next, now, front)
        && EndOf(now, front) <= StartsAt(e)
        && (e.ev.StoreEv? ==> NextWrite(gap, next, front) <= StartsAt(e)))
  }

  /** Every character takes longer than two writes do. */
  ghost predicate Slow(cfg: Config, gap: nat) {
    forall cmd, ctrl, ectrl :: 2 * gap < cfg.rate(cmd, ctrl, ectrl)
  }

  /** So it is on a machine clocked at 921600 Hz or more whose program leaves up to 13 cycles between writes;
      two store instructions take eight. */
  lemma MachinesAreSlow(cfg: Config, hz: nat, gap: nat)
    requires 921600 <= hz < 0x4000_0000 && cfg.rate == RateOf(hz, cfg.mode) && gap <= 13
    ensures Slow(cfg, gap)
  {
    forall cmd: byte, ctrl: byte, ectrl: byte
      ensures 2 * gap < cfg.rate(cmd, ctrl, ectrl)
    {
      assert cfg.rate(cmd, ctrl, ectrl) == TicksFor(hz, cfg.mode, cmd, ctrl, ectrl);
    }
  }

  /** What holds in every state a run can reach. */
  ghost predicate Reachable(cfg: Config, gap: nat, s: State) {
    Mirror(cfg, s) && Lines(s) && Attended(cfg, s) && 2 * gap < s.frame.ticks
  }

  lemma StoreFrame(cfg: Config, gap: nat, s: State, now: nat, addr: nat, value: byte, opens: bool)
    requires Slow(cfg, gap) && 2 * gap < s.frame.ticks
    ensures 2 * gap < StorePlain(cfg, s, now, addr, value, opens).frame.ticks
  {
  }

  lemma ReachableStore(cfg: Config, gap: nat, s: State, now: nat, addr: nat, value: byte, opens: bool)
    requires Slow(cfg, gap) && Reachable(cfg, gap, s)
    ensures Reachable(cfg, gap, StorePlain(cfg, s, now, addr, value, opens))
  {
    MirrorStore(cfg, s, now, addr, value, opens);
    StoreLines(cfg, s, now, addr, value, opens);
    StoreAttended(cfg, s, now, addr, value, opens);
    StoreFrame(cfg, gap, s, now, addr, value, opens);
  }

  lemma ReachableStep(cfg: Config, gap: nat, s: State, e: Stamped)
    requires Slow(cfg, gap) && Reachable(cfg, gap, s)
    ensures Reachable(cfg, gap, Step(cfg, s, e))
  {
    if e.ev.StoreEv? {
      var StoreEv(addr, value, rmw, opens) := e.ev;
      if rmw {
        ReachableStore(cfg, gap, s, e.now - 1, addr, s.regs.lastRead, opens);
      }
      ReachableStore(cfg, gap, WriteBack(cfg, s, e.now, addr, rmw, opens), e.now, addr, value, opens);
    } else {
      MirrorStep(cfg, s, e);
      LinesStep(cfg, s, e);
      AttendedStep(cfg, s, e);
    }
  }

  lemma {:induction false} ReachableAfter(cfg: Config, gap: nat, run: seq<Stamped>)
    requires Slow(cfg, gap)
    ensures Reachable(cfg, gap, After(cfg, Start(cfg), run))
  {
    if run == [] {
      MirrorReset(cfg, PowerOn(), 6);
    } else {
      ReachableAfter(cfg, gap, run[..|run| - 1]);
      ReachableStep(cfg, gap, After(cfg, Start(cfg), run[..|run| - 1]), run[|run| - 1]);
    }
  }

  // ---------------------------------------------------------------- the earliest clock

  /** What matters of a state: the device, DTR, whether a byte waits, and the transmit alarm. */
  datatype View = View(open: bool, dtr: bool, waits: bool, pending: Option<nat>)

  function ViewOf(s: State): View {
    View(s.port.open, Dtr(s.regs.cmd), s.tx.state == DR_WRITTEN, s.tx.pending)
  }

  function Max(a: nat, b: nat): nat {
    if a < b then b else a
  }

  function Min(a: nat, b: nat): nat {
    if a < b then a else b
  }

  /** The earliest clock at which a byte can be sent, at clock `now` and with no write before `next`. A byte
      that waits needs the alarm; else DTR has to be on and the byte written; a closed device has to be
      opened first, by a command that may keep the alarm or cancel it. */
  function Earliest(v: View, gap: nat, next: nat, now: nat): nat {
    var first := Max(next, now);
    var second := first + gap;
    if v.open then
      match v.pending
      case Some(at) => Max(at, if v.waits then now else if v.dtr then first else second)
      case None => (if v.dtr then first else second) + 1
    else
      match v.pending
      case Some(at) => Min(Max(at, if v.waits then first else second), second + 1)
      case None => if v.dtr then Max(first + 1, second) else second + 1
  }

  // ---------------------------------------------------------------- no event brings it forward

  /** What a command does to the view at clock `t`: a pending alarm of an open device stays, if the command
      is calm; else it stays, is cancelled, or is set a character ahead. */
  ghost predicate Commanded(v: View, v': View, gap: nat, t: nat) {
    && (v.open && v.pending.Some? ==> v'.open && v'.pending == v.pending)
    && (v'.waits ==> v.waits)
    && (v'.pending == v.pending || v'.pending.None? || t + 2 * gap < v'.pending.value)
  }

  lemma CommandView(cfg: Config, gap: nat, s: State, t: nat, value: byte, opens: bool)
    requires Slow(cfg, gap) && Reachable(cfg, gap, s)
    requires s.port.open && s.tx.active ==> CalmCmd(cfg, s, value)
    ensures Commanded(ViewOf(s), ViewOf(WriteCmd(cfg, s, t, value, opens)), gap, t)
  {
  }

  /** What a data register write does to the view. */
  function Written(v: View, t: nat): View {
    if v.dtr then v.(waits := true, pending := if v.pending.Some? then v.pending else Some(t + 1)) else v
  }

  /** What a calm register write does. */
  ghost predicate Stored(data: bool, v: View, v': View, gap: nat, t: nat) {
    if data then v' == Written(v, t) else Commanded(v, v', gap, t)
  }

  lemma StoreView(cfg: Config, gap: nat, s: State, t: nat, addr: nat, value: byte, opens: bool)
    requires Slow(cfg, gap) && Reachable(cfg, gap, s) && CalmStore(cfg, s, addr, value)
    ensures Stored(RegisterOf(cfg, addr) == 0, ViewOf(s), ViewOf(StorePlain(cfg, s, t, addr, value, opens)), gap, t)
  {
    match RegisterOf(cfg, addr) {
      case 1 => ClearedCommand(s.regs.cmd);
      case 2 => CommandView(cfg, gap, s, t, value, opens);
      case _ =>
    }
  }

  /** Two writes to one register, one cycle apart, do no more than one. */
  lemma StoredTwice(data: bool, v: View, v': View, v'': View, gap: nat, t: nat)
    requires Stored(data, v, v', gap, t) && Stored(data, v', v'', gap, t + 1)
    ensures Stored(data, v, v'', gap, t)
  {
  }

  lemma StoredLater(data: bool, v: View, v': View, gap: nat, next: nat, now: nat, t: nat, next': nat, now': nat)
    requires Stored(data, v, v', gap, t) && Max(next, now) <= t <= now' && t + gap <= next'
    ensures Earliest(v, gap, next, now) <= Earliest(v', gap, next', now')
  {
  }

  /** What the transmit alarm does: no byte waits any more, and the alarm is gone or a character ahead. */
  ghost predicate Fired(v: View, v': View, gap: nat, t: nat) {
    v' == View(v.open, v.dtr, false, v'.pending) && (v'.pending.None? || t + 2 * gap < v'.pending.value)
  }

  lemma FiredLater(v: View, v': View, gap: nat, next: nat, now: nat, t: nat)
    requires Fired(v, v', gap, t) && v.pending.Some? && Max(v.pending.value, now) <= t
    ensures Earliest(v, gap, next, now) <= Earliest(v', gap, next, t)
    ensures v.open && v.waits ==> Earliest(v, gap, next, now) <= t
  {
  }

  lemma UnseenLater(v: View, gap: nat, next: nat, now: nat, t: nat)
    requires now <= t
    ensures Earliest(v, gap, next, now) <= Earliest(v, gap, next, t)
  {
  }

  /** The view after a calm register access that starts at `t`. */
  lemma AccessView(cfg: Config, gap: nat, s: State, e: Stamped)
    requires Slow(cfg, gap) && Reachable(cfg, gap, s) && Calm(cfg, s, e) && e.ev.StoreEv?
    ensures Stored(RegisterOf(cfg, e.ev.addr) == 0, ViewOf(s), ViewOf(Step(cfg, s, e)), gap, StartsAt(e))
  {
    var StoreEv(addr, value, rmw, opens) := e.ev;
    if rmw {
      var s1 := StorePlain(cfg, s, e.now - 1, addr, s.regs.lastRead, opens);
      ReachableStore(cfg, gap, s, e.now - 1, addr, s.regs.lastRead, opens);
      StoreView(cfg, gap, s, e.now - 1, addr, s.regs.lastRead, opens);
      StoreView(cfg, gap, s1, e.now, addr, value, opens);
      StoredTwice(RegisterOf(cfg, addr) == 0, ViewOf(s), ViewOf(s1), ViewOf(Step(cfg, s, e)), gap, e.now - 1);
    } else {
      StoreView(cfg, gap, s, e.now, addr, value, opens);
    }
  }

  lemma TxView(cfg: Config, gap: nat, s: State, now: nat)
    requires Reachable(cfg, gap, s)
    ensures Fired(ViewOf(s), ViewOf(FireTx(cfg, s, now)), gap, now)
  {
  }

  /** What the next event has to keep to: the clock, and the gap between writes. */
  ghost predicate InTurn(e: Stamped, next: nat, now: nat) {
    now <= StartsAt(e) && (e.ev.StoreEv? ==> next <= StartsAt(e))
  }

  function NextAfter(e: Stamped, gap: nat, next: nat): nat {
    if e.ev.StoreEv? then e.now + gap else next
  }

  /** What the event does to the view, in the terms above. */
  ghost predicate Seen(e: Stamped, data: bool, v: View, v': View, gap: nat) {
    match e.ev
    case StoreEv(_, _, _, _) => Stored(data, v, v', gap, StartsAt(e))
    case TxAlarm => v.pending.Some? && v.pending.value <= e.now && Fired(v, v', gap, e.now)
    case _ => v' == v
  }

  lemma StepView(cfg: Config, gap: nat, s: State, e: Stamped)
    requires Slow(cfg, gap) && Reachable(cfg, gap, s) && Enabled(s, e) && Calm(cfg, s, e)
    ensures Seen(e, e.ev.StoreEv? && RegisterOf(cfg, e.ev.addr) == 0, ViewOf(s), ViewOf(Step(cfg, s, e)), gap)
  {
    match e.ev {
      case StoreEv(_, _, _, _) => AccessView(cfg, gap, s, e);
      case TxAlarm => TxView(cfg, gap, s, e.now);
      case _ =>
    }
  }

  lemma SeenLater(e: Stamped, data: bool, v: View, v': View, gap: nat, next: nat, now: nat)
    requires Seen(e, data, v, v', gap) && InTurn(e, next, now)
    ensures Earliest(v, gap, next, now) <= Earliest(v', gap, NextAfter(e, gap, next), e.now)
    ensures e.ev.TxAlarm? && v.open && v.waits ==> Earliest(v, gap, next, now) <= e.now
  {
    match e.ev {
      case StoreEv(_, _, _, _) => StoredLater(data, v, v', gap, next, now, StartsAt(e), e.now + gap, e.now);
      case TxAlarm => FiredLater(v, v', gap, next, now, e.now);
      case _ => UnseenLater(v, gap, next, now, e.now);
    }
  }

  /** No event of a calm run brings the earliest clock forward, and the one that sends does not come before
      it. */
  lemma EarliestStep(cfg: Config, gap: nat, s: State, e: Stamped, next: nat, now: nat)
    requires Slow(cfg, gap) && Reachable(cfg, gap, s)
    requires Enabled(s, e) && Calm(cfg, s, e) && InTurn(e, next, now)
    ensures Earliest(ViewOf(s), gap, next, now)
            <= Earliest(ViewOf(Step(cfg, s, e)), gap, NextAfter(e, gap, next), e.now)
    ensures e.ev.TxAlarm? && s.port.open && s.tx.state == DR_WRITTEN ==>
              Earliest(ViewOf(s), gap, next, now) <= e.now
  {
    StepView(cfg, gap, s, e);
    SeenLater(e, e.ev.StoreEv? && RegisterOf(cfg, e.ev.addr) == 0, ViewOf(s), ViewOf(Step(cfg, s, e)), gap, next, now);
  }

  // ---------------------------------------------------------------- nothing goes out before it

  /** From log position `base` on, nothing is sent before clock `due`. */
  ghost predicate NoneBefore(log: seq<Entry>, base: nat, due: nat) {
    forall k :: base <= k < |log| && log[k].Sent? ==> due <= log[k].clk
  }

  /** The log has grown by at most one send, at clock `now`. */
  lemma NoneBeforeGrows(s: State, t: State, base: nat, due: nat, now: nat)
    requires base <= |s.log| && NoneBefore(s.log, base, due) && SendsAtMost(s, t, now)
    requires s.port.open && s.tx.state == DR_WRITTEN && s.tx.pending.Some? && s.tx.pending.value <= now ==> due <= now
    ensures NoneBefore(t.log, base, due)
  {
    assert forall k :: 0 <= k < |s.log| ==> t.log[k] == s.log[k];
  }

  /** Only the transmit alarm sends. */
  lemma OthersSendNothing(cfg: Config, s: State, e: Stamped)
    requires !e.ev.TxAlarm? && !e.ev.ResetEv?
    ensures SendsNothing(s, Step(cfg, s, e))
  {
    match e.ev {
      case StoreEv(addr, value, rmw, opens) => StoreSends(cfg, s, e.now, addr, value, rmw, opens);
      case ReadEv(addr, dcd, dsr) => ReadSends(cfg, s, addr, dcd, dsr);
      case RxAlarm(input) => FireRxSends(cfg, s, e.now, input);
    }
  }

  lemma NoneBeforeStep(cfg: Config, s: State, e: Stamped, base: nat, due: nat)
    requires Enabled(s, e) && !e.ev.ResetEv? && base <= |s.log| && NoneBefore(s.log, base, due)
    requires e.ev.TxAlarm? && s.port.open && s.tx.state == DR_WRITTEN ==> due <= e.now
    ensures s.log <= Step(cfg, s, e).log && NoneBefore(Step(cfg, s, e).log, base, due)
  {
    var t := Step(cfg, s, e);
    if e.ev.TxAlarm? {
      FireTxSends(cfg, s, e.now);
      NoneBeforeGrows(s, t, base, due, e.now);
    } else {
      OthersSendNothing(cfg, s, e);
      assert forall k :: 0 <= k < |s.log| ==> t.log[k] == s.log[k];
    }
  }

  /** From log position `base` on nothing has been sent before `due`, and nothing can be. */
  ghost predicate Holds(cfg: Config, gap: nat, base: nat, t: State, next: nat, now: nat, due: nat) {
    && Reachable(cfg, gap, t) && base <= |t.log| && NoneBefore(t.log, base, due)
    && due <= Earliest(ViewOf(t), gap, next, now)
  }

  lemma HoldsOn(cfg: Config, gap: nat, base: nat, s: State, e: Stamped, next: nat, now: nat, due: nat)
    requires Slow(cfg, gap) && Enabled(s, e) && Calm(cfg, s, e) && InTurn(e, next, now)
    requires Holds(cfg, gap, base, s, next, now, due)
    ensures Holds(cfg, gap, base, Step(cfg, s, e), NextAfter(e, gap, next), e.now, due)
  {
    EarliestStep(cfg, gap, s, e, next, now);
    NoneBeforeStep(cfg, s, e, base, due);
    ReachableStep(cfg, gap, s, e);
  }

  lemma {:induction false} HoldsThrough(
    cfg: Config, gap: nat, s: State, next: nat, now: nat, run: seq<Stamped>, due: nat)
    requires Slow(cfg, gap) && Holds(cfg, gap, |s.log|, s, next, now, due)
    requires Spread(gap, next, now, run) && CalmRun(cfg, s, run)
    ensures Holds(cfg, gap, |s.log|, After(cfg, s, run), NextWrite(gap, next, run), EndOf(now, run), due)
  {
    if run != [] {
      var front, e := run[..|run| - 1], run[|run| - 1];
      HoldsThrough(cfg, gap, s, next, now, front, due);
      HoldsOn(cfg, gap, |s.log|, After(cfg, s, front), e, NextWrite(gap, next, front), EndOf(now, front), due);
    }
  }

  // ---------------------------------------------------------------- and something can go out then

  /** The run is calm and in time, and leads to `t`. */
  ghost predicate Leads(cfg: Config, gap: nat, s: State, next: nat, now: nat, run: seq<Stamped>, t: State) {
    && Spread(gap, next, now, run) && CalmRun(cfg, s, run) && t == After(cfg, s, run)
    && |s.log| <= |t.log|
  }

  /** One event more. */
  lemma LeadsOn(
    cfg: Config, gap: nat, s: State, next: nat, now: nat, run: seq<Stamped>, t: State, e: Stamped)
    returns (r: seq<Stamped>)
    requires Leads(cfg, gap, s, next, now, run, t)
    requires Enabled(t, e) && Calm(cfg, t, e) && InTurn(e, NextWrite(gap, next, run), EndOf(now, run))
    ensures r == run + [e] && Leads(cfg, gap, s, next, now, r, Step(cfg, t, e))
    ensures NextWrite(gap, next, r) == NextAfter(e, gap, NextWrite(gap, next, run)) && EndOf(now, r) == e.now
  {
    r := run + [e];
    assert r[..|r| - 1] == run;
    LogGrows(cfg, t, e);
  }

  lemma LogGrows(cfg: Config, s: State, e: Stamped)
    requires Calm(cfg, s, e) && Enabled(s, e)
    ensures |s.log| <= |Step(cfg, s, e).log|
  {
    SendStep(cfg, s, e);
  }

  /** The run is calm and in time, and sends a byte at clock `at`. */
  ghost predicate SendsAt(cfg: Config, gap: nat, s: State, next: nat, now: nat, run: seq<Stamped>, at: nat) {
    && Spread(gap, next, now, run) && CalmRun(cfg, s, run)
    && exists k :: |s.log| <= k < |After(cfg, s, run).log| && After(cfg, s, run).log[k].Sent?
                   && After(cfg, s, run).log[k].clk == at
  }

  /** With the device open, a byte that waits goes out at the transmit alarm. */
  lemma Send(cfg: Config, gap: nat, s: State, next: nat, now: nat, run: seq<Stamped>, t: State, at: Tick)
    returns (r: seq<Stamped>)
    requires Leads(cfg, gap, s, next, now, run, t) && EndOf(now, run) <= at
    requires var v := ViewOf(t); v.open && v.waits && v.pending.Some? && v.pending.value <= at
    ensures SendsAt(cfg, gap, s, next, now, r, at)
  {
    r := LeadsOn(cfg, gap, s, next, now, run, t, At(at, TxAlarm));
    var sent := After(cfg, s, r).log[|t.log|];
    assert sent.Sent? && sent.clk == at;
  }

  /** The data register is written. */
  lemma Put(cfg: Config, gap: nat, s: State, next: nat, now: nat, run: seq<Stamped>, t: State, at: Tick)
    returns (r: seq<Stamped>, u: State)
    requires Leads(cfg, gap, s, next, now, run, t) && Max(NextWrite(gap, next, run), EndOf(now, run)) <= at
    requires Mirror(cfg, t)
    ensures Leads(cfg, gap, s, next, now, r, u) && NextWrite(gap, next, r) == at + gap && EndOf(now, r) == at
    ensures Mirror(cfg, u) && ViewOf(u) == Written(ViewOf(t), at)
  {
    var e := At(at, StoreEv(0, 0, false, true));
    r := LeadsOn(cfg, gap, s, next, now, run, t, e);
    u := Step(cfg, t, e);
    MirrorStep(cfg, t, e);
  }

  /** A command is written. */
  lemma Command(
    cfg: Config, gap: nat, s: State, next: nat, now: nat, run: seq<Stamped>, t: State, at: Tick, value: byte)
    returns (r: seq<Stamped>, u: State)
    requires Leads(cfg, gap, s, next, now, run, t) && Max(NextWrite(gap, next, run), EndOf(now, run)) <= at
    requires Mirror(cfg, t) && (t.port.open && t.tx.active ==> CalmCmd(cfg, t, value))
    ensures Leads(cfg, gap, s, next, now, r, u) && NextWrite(gap, next, r) == at + gap && EndOf(now, r) == at
    ensures Mirror(cfg, u) && u == WriteCmd(cfg, t, at, value, true)
  {
    var e := At(at, StoreEv(2, value, false, true));
    r := LeadsOn(cfg, gap, s, next, now, run, t, e);
    u := Step(cfg, t, e);
    MirrorStep(cfg, t, e);
  }

  /** DTR on, RTS off: the device is open, and no alarm is set. */
  const CANCEL: byte := 1

  lemma Cancelled(cfg: Config, s: State, at: nat)
    requires Mirror(cfg, s) && !(s.port.open && s.tx.pending.Some?)
    ensures ViewOf(WriteCmd(cfg, s, at, CANCEL, true)) == View(true, true, s.tx.state == DR_WRITTEN, None)
  {
  }

  /** DTR on, RTS on without transmit interrupts: a closed device is opened, and the alarm stays. */
  const OPEN_UP: byte := 9

  lemma OpenedUp(cfg: Config, s: State, at: nat)
    requires Mirror(cfg, s) && !s.port.open && s.tx.pending.Some?
    ensures ViewOf(WriteCmd(cfg, s, at, OPEN_UP, true)) == ViewOf(s).(open := true, dtr := true)
  {
  }

  /** DTR on, RTS as it is: the alarm of an open device stays. */
  function DtrOn(cmd: byte): (r: byte)
    ensures Dtr(r) && Transmitter(r) == Transmitter(cmd)
  {
    4 * Transmitter(cmd) + 1
  }

  lemma DtrTurnedOn(cfg: Config, s: State, at: nat)
    requires Mirror(cfg, s) && Lines(s) && s.port.open && s.tx.pending.Some?
    ensures CalmCmd(cfg, s, DtrOn(s.regs.cmd))
    ensures ViewOf(WriteCmd(cfg, s, at, DtrOn(s.regs.cmd), true)) == ViewOf(s).(dtr := true)
  {
  }

  lemma Arrived(cfg: Config, gap: nat, s: State, next: nat, now: nat)
    ensures Leads(cfg, gap, s, next, now, [], s)
  {
  }

  /** The alarm is cancelled, and the byte written after it. */
  lemma CancelAndPut(cfg: Config, gap: nat, s: State, next: nat, now: Tick) returns (run: seq<Stamped>)
    requires Mirror(cfg, s) && !(s.port.open && s.tx.pending.Some?)
    ensures SendsAt(cfg, gap, s, next, now, run, Max(next, now) + gap + 1)
  {
    var first: nat := Max(next, now);
    Arrived(cfg, gap, s, next, now);
    Cancelled(cfg, s, first);
    var r1, t1 := Command(cfg, gap, s, next, now, [], s, first, CANCEL);
    var r2, t2 := Put(cfg, gap, s, next, now, r1, t1, first + gap);
    run := Send(cfg, gap, s, next, now, r2, t2, first + gap + 1);
  }

  /** The byte is written first, and the device opened after it. */
  lemma PutAndOpen(cfg: Config, gap: nat, s: State, next: nat, now: Tick) returns (run: seq<Stamped>)
    requires Mirror(cfg, s) && !s.port.open && s.tx.pending.None? && Dtr(s.regs.cmd)
    ensures SendsAt(cfg, gap, s, next, now, run, Earliest(ViewOf(s), gap, next, now))
  {
    var first: nat := Max(next, now);
    Arrived(cfg, gap, s, next, now);
    var r1, t1 := Put(cfg, gap, s, next, now, [], s, first);
    OpenedUp(cfg, t1, first + gap);
    var r2, t2 := Command(cfg, gap, s, next, now, r1, t1, first + gap, OPEN_UP);
    run := Send(cfg, gap, s, next, now, r2, t2, Max(first + 1, first + gap));
  }

  lemma ReachedOpen(cfg: Config, gap: nat, s: State, next: nat, now: Tick) returns (run: seq<Stamped>)
    requires Mirror(cfg, s) && Lines(s) && s.port.open
    ensures SendsAt(cfg, gap, s, next, now, run, Earliest(ViewOf(s), gap, next, now))
  {
    var first: nat, v := Max(next, now), ViewOf(s);
    var due := Earliest(v, gap, next, now);
    Arrived(cfg, gap, s, next, now);
    if v.pending.Some? && v.waits {
      run := Send(cfg, gap, s, next, now, [], s, due);
    } else if v.dtr {
      var r1, t1 := Put(cfg, gap, s, next, now, [], s, first);
      run := Send(cfg, gap, s, next, now, r1, t1, due);
    } else if v.pending.Some? {
      DtrTurnedOn(cfg, s, first);
      var r1, t1 := Command(cfg, gap, s, next, now, [], s, first, DtrOn(s.regs.cmd));
      var r2, t2 := Put(cfg, gap, s, next, now, r1, t1, first + gap);
      run := Send(cfg, gap, s, next, now, r2, t2, due);
    } else {
      run := CancelAndPut(cfg, gap, s, next, now);
    }
  }

  lemma ReachedClosed(cfg: Config, gap: nat, s: State, next: nat, now: Tick) returns (run: seq<Stamped>)
    requires Mirror(cfg, s) && !s.port.open
    ensures SendsAt(cfg, gap, s, next, now, run, Earliest(ViewOf(s), gap, next, now))
  {
    var first: nat, v := Max(next, now), ViewOf(s);
    var due := Earliest(v, gap, next, now);
    Arrived(cfg, gap, s, next, now);
    if v.pending.None? && v.dtr {
      run := PutAndOpen(cfg, gap, s, next, now);
    } else if v.pending.None? || v.pending.value > first + gap + 1 {
      run := CancelAndPut(cfg, gap, s, next, now);
    } else {
      OpenedUp(cfg, s, first);
      var r1, t1 := Command(cfg, gap, s, next, now, [], s, first, OPEN_UP);
      if v.waits {
        run := Send(cfg, gap, s, next, now, r1, t1, due);
      } else {
        var r2, t2 := Put(cfg, gap, s, next, now, r1, t1, first + gap);
        run := Send(cfg, gap, s, next, now, r2, t2, due);
      }
    }
  }

  // ---------------------------------------------------------------- the exact condition

  /** However a calm run goes on from here, nothing is sent before clock `due`. */
  ghost predicate HoldKept(cfg: Config, gap: nat, s: State, next: nat, now: nat, due: nat) {
    forall run :: Spread(gap, next, now, run) && CalmRun(cfg, s, run) ==>
      NoneBefore(After(cfg, s, run).log, |s.log|, due)
  }

  /** In every state a run can reach, `Earliest` is what it says: calm runs send nothing before it, and one of
      them sends then. */
  lemma HoldIff(cfg: Config, gap: nat, s: State, next: nat, now: Tick, due: nat)
    requires Slow(cfg, gap) && Reachable(cfg, gap, s)
    ensures HoldKept(cfg, gap, s, next, now, due) <==> due <= Earliest(ViewOf(s), gap, next, now)
  {
    if due <= Earliest(ViewOf(s), gap, next, now) {
      forall run | Spread(gap, next, now, run) && CalmRun(cfg, s, run)
        ensures NoneBefore(After(cfg, s, run).log, |s.log|, due)
      {
        HoldsThrough(cfg, gap, s, next, now, run, due);
      }
    } else if s.port.open {
      var run := ReachedOpen(cfg, gap, s, next, now);
    } else {
      var run := ReachedClosed(cfg, gap, s, next, now);
    }
  }

  /** A read-modify-write instruction has read the register that it writes back. */
  predicate ReadBefore(cfg: Config, s: State, e: Stamped) {
    e.ev.StoreEv? && e.ev.rmw && RegisterOf(cfg, e.ev.addr) == 2 ==> s.regs.lastRead == s.regs.cmd
  }

  lemma ReadEstablishes(cfg: Config, s: State, now: Tick, addr: nat, dcd: bool, dsr: bool, e: Stamped)
    requires e.ev.StoreEv? && e.ev.addr == addr
    ensures ReadBefore(cfg, Step(cfg, s, At(now, ReadEv(addr, dcd, dsr))), e)
  {
  }

  /** The earliest clock after an event that is not calm: two writes later, or one, when the event is a command
      that leaves DTR on. */
  function Afterwards(cfg: Config, e: Stamped, gap: nat): nat {
    if e.ev.StoreEv? && RegisterOf(cfg, e.ev.addr) == 2 && Dtr(e.ev.value) then e.now + gap + 1
    else e.now + 2 * gap + 1
  }

  /** A command that is not calm */
  lemma CommandEnds(cfg: Config, gap: nat, s: State, now: nat, value: byte, opens: bool)
    requires Slow(cfg, gap) && Reachable(cfg, gap, s) && s.port.open && s.tx.active && !CalmCmd(cfg, s, value)
    ensures var v := ViewOf(WriteCmd(cfg, s, now, value, opens));
            && v.dtr == Dtr(value)
            && (if v.open then v.pending.None? else !v.dtr && (v.pending.None? || now + 2 * gap < v.pending.value))
  {
  }

  lemma ProgrammedResetEnds(cfg: Config, s: State, now: nat)
    ensures var v := ViewOf(ProgrammedReset(cfg, s, now)); !v.dtr && !v.waits && v.pending.None?
  {
    ClearedCommand(s.regs.cmd);
  }

  /** Writing back the command that is in force changes nothing that matters here. */
  lemma BackIsCalm(cfg: Config, gap: nat, s: State, now: nat, opens: bool)
    requires Reachable(cfg, gap, s) && s.port.open && s.tx.active
    ensures CalmCmd(cfg, s, s.regs.cmd)
    ensures var t := WriteCmd(cfg, s, now, s.regs.cmd, opens);
            ViewOf(t) == ViewOf(s) && t.rx.active == s.rx.active && t.tx.active
  {
  }

  /** When a byte can go out at the earliest after an event that is not calm. */
  lemma UncalmEnds(cfg: Config, gap: nat, s: State, e: Stamped)
    requires Slow(cfg, gap) && Reachable(cfg, gap, s) && s.port.open && s.tx.active
    requires !Calm(cfg, s, e) && ReadBefore(cfg, s, e)
    ensures Earliest(ViewOf(Step(cfg, s, e)), gap, e.now + gap, e.now) == Afterwards(cfg, e, gap)
  {
    if e.ev.StoreEv? {
      var StoreEv(addr, value, rmw, opens) := e.ev;
      var s1 := WriteBack(cfg, s, e.now, addr, rmw, opens);
      if RegisterOf(cfg, addr) == 1 {
        ProgrammedResetEnds(cfg, s1, e.now);
      } else if RegisterOf(cfg, addr) == 2 {
        if rmw {
          BackIsCalm(cfg, gap, s, e.now - 1, opens);
          ReachableStore(cfg, gap, s, e.now - 1, addr, s.regs.lastRead, opens);
        }
        CommandEnds(cfg, gap, s1, e.now, value, opens);
      }
    }
  }

  /** After a calm event the alarm stands, or its clock has been reached. */
  lemma CalmStands(cfg: Config, gap: nat, s: State, e: Stamped, next: nat)
    requires Mirror(cfg, s) && Enabled(s, e) && Calm(cfg, s, e) && s.port.open && s.tx.pending.Some?
    ensures s.tx.pending.value <= Earliest(ViewOf(Step(cfg, s, e)), gap, next, e.now)
  {
    StepHolds(cfg, s, e, s.tx.pending.value);
  }

  /** When a program can write next after `e`. */
  function NextOf(e: Stamped, gap: nat): nat {
    if e.ev.StoreEv? || e.ev.ResetEv? then e.now + gap else e.now
  }

  /** Calm is what a register access or reset has to be: whatever the run before it, with the device open and
      a transmit alarm pending, no calm continuation sends a byte before that alarm's clock if and only if the
      event is calm, or the clock comes no later than a program can get a byte out anyway. */
  lemma CalmIff(cfg: Config, gap: nat, run: seq<Stamped>, e: Stamped)
    requires Slow(cfg, gap)
    requires var s := After(cfg, Start(cfg), run);
             Enabled(s, e) && s.port.open && s.tx.pending.Some? && ReadBefore(cfg, s, e)
    ensures var s := After(cfg, Start(cfg), run);
            var due := s.tx.pending.value;
            HoldKept(cfg, gap, Step(cfg, s, e), NextOf(e, gap), e.now, due)
            <==> Calm(cfg, s, e) || due <= Afterwards(cfg, e, gap)
  {
    var s := After(cfg, Start(cfg), run);
    ReachableAfter(cfg, gap, run);
    ReachableStep(cfg, gap, s, e);
    HoldIff(cfg, gap, Step(cfg, s, e), NextOf(e, gap), e.now, s.tx.pending.value);
    if Calm(cfg, s, e) {
      CalmStands(cfg, gap, s, e, NextOf(e, gap));
    } else {
      UncalmEnds(cfg, gap, s, e);
    }
  }

  // ---------------------------------------------------------------- an example

  /** A program that drops RTS once a byte has gone out, and then writes the next one as soon as it can, gets
      that sent long before the character time has passed. */
  lemma DroppingRtsDefeatsPacing(cfg: Config, gap: nat, a: byte, b: byte) returns (run: seq<Stamped>)
    requires cfg.mode == Normal && !cfg.ip232 && Slow(cfg, gap)
    ensures Spread(gap, 0, 0, run) && Legal(cfg, Start(cfg), run)
    ensures var log := After(cfg, Start(cfg), run).log;
            |log| == 5 && log[2].Sent? && log[4].Sent?
            && log[2].ticks == cfg.rate(9, 0, 0) && log[4].clk == log[2].clk + gap + 2
  {
    var r4 := RtsDropped(cfg, gap, a);
    var t: nat := 11 + cfg.rate(9, 0, 0);
    ByteWritten(cfg, After(cfg, Start(cfg), r4), t + gap, b);
    var r5 := Extend(cfg, gap, r4, At(t + gap, StoreEv(0, b, false, true)));
    WaitingByteOut(cfg, After(cfg, Start(cfg), r5), t + gap + 1);
    run := Extend(cfg, gap, r5, At(t + gap + 1, TxAlarm));
  }

  lemma ByteWritten(cfg: Config, s: State, now: Tick, b: byte)
    requires cfg.mode == Normal && s.port.open && s.regs.cmd == 1 && !s.tx.active
    ensures var t := Step(cfg, s, At(now, StoreEv(0, b, false, true)));
            && t.port.open && |t.log| == |s.log| + 1 && s.log <= t.log
            && t.tx.state == DR_WRITTEN && t.tx.pending == Some(now + 1) && t.regs.cmd == 1
  {
  }

  lemma WaitingByteOut(cfg: Config, s: State, now: Tick)
    requires s.port.open && s.tx.state == DR_WRITTEN && Transmitter(s.regs.cmd) != TX_WITH_IRQ
    ensures var t := Step(cfg, s, At(now, TxAlarm));
            |t.log| == |s.log| + 1 && s.log <= t.log && t.log[|s.log|].Sent? && t.log[|s.log|].clk == now
  {
  }

  lemma RtsOff(cfg: Config, s: State, now: Tick)
    requires cfg.mode == Normal && !cfg.ip232 && s.port.open && s.rx.active
    ensures var t := Step(cfg, s, At(now, StoreEv(2, 1, false, true)));
            t.port.open && t.regs.cmd == 1 && t.log == s.log
            && t.tx == s.tx.(active := false, pending := None)
  {
  }

  /** RTS off: the transmit alarm is cancelled although the byte is still going out. */
  lemma RtsDropped(cfg: Config, gap: nat, a: byte) returns (run: seq<Stamped>)
    requires cfg.mode == Normal && !cfg.ip232 && Slow(cfg, gap)
    ensures Spread(gap, 0, 0, run) && Legal(cfg, Start(cfg), run)
    ensures var ticks := cfg.rate(9, 0, 0);
            var s := After(cfg, Start(cfg), run);
            && EndOf(0, run) == 11 + ticks && NextWrite(gap, 0, run) == 11 + ticks + gap
            && s.port.open && s.regs.cmd == 1
            && s.tx == Tx(TX_STARTED, a, false, 10 + 2 * ticks, None)
            && |s.log| == 3 && s.log[2] == Sent(10 + ticks, a, 0xff, ticks)
  {
    var r3 := FirstByteOut(cfg, gap, a);
    RtsOff(cfg, After(cfg, Start(cfg), r3), 11 + cfg.rate(9, 0, 0));
    run := Extend(cfg, gap, r3, At(11 + cfg.rate(9, 0, 0), StoreEv(2, 1, false, true)));
  }

  lemma FirstByteOut(cfg: Config, gap: nat, a: byte) returns (run: seq<Stamped>)
    requires cfg.mode == Normal && !cfg.ip232 && Slow(cfg, gap)
    ensures Spread(gap, 0, 0, run) && Legal(cfg, Start(cfg), run)
    ensures var ticks := cfg.rate(9, 0, 0);
            var s := After(cfg, Start(cfg), run);
            && EndOf(0, run) == 10 + ticks && NextWrite(gap, 0, run) == 10 + 2 * gap
            && s.port.open && s.rx.active
            && s.tx == Tx(TX_STARTED, a, true, 10 + 2 * ticks, Some(10 + 2 * ticks))
            && |s.log| == 3 && s.log[2] == Sent(10 + ticks, a, 0xff, ticks)
  {
    var start, ticks: nat := Start(cfg), cfg.rate(9, 0, 0);
    var t := 10 + ticks;
    // DTR and RTS on, no transmit interrupts; then the data register is written
    var r1 := Extend(cfg, gap, [], At(10, StoreEv(2, 9, false, true)));
    assert After(cfg, start, r1).tx == Tx(NO_TRANSMIT, 0, true, t, Some(t));
    var r2 := Extend(cfg, gap, r1, At(10 + gap, StoreEv(0, a, false, true)));
    run := Extend(cfg, gap, r2, At(t, TxAlarm));
  }

  lemma Extend(cfg: Config, gap: nat, run: seq<Stamped>, e: Stamped) returns (r: seq<Stamped>)
    requires Legal(cfg, Start(cfg), run) && Enabled(After(cfg, Start(cfg), run), e)
    requires Spread(gap, 0, 0, run) && InTurn(e, NextWrite(gap, 0, run), EndOf(0, run))
    ensures r == run + [e] && Legal(cfg, Start(cfg), r) && Spread(gap, 0, 0, r)
    ensures NextWrite(gap, 0, r) == NextAfter(e, gap, NextWrite(gap, 0, run)) && EndOf(0, r) == e.now
    ensures After(cfg, Start(cfg), r) == Step(cfg, After(cfg, Start(cfg), run), e)
  {
    r := run + [e];
    assert r[..|r| - 1] == run;
    AfterSnoc(cfg, Start(cfg), run, e);
  }
}
