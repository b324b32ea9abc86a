/** How fast the ACIA hands bytes to the serial driver. */
module AciaPacing {
  import opened Basics
  import opened AciaSpec
  import opened AciaRuns

  /** A command to an open device that leaves a pending transmit alarm alone: it neither closes the
      device nor drops RTS. */
  predicate CalmCmd(cfg: Config, s: State, value: byte) {
    (Dtr(value) || cfg.ip232) && (Transmitter(value) == NO_RTS ==> !s.rx.active)
  }

  /** A register write that cannot cancel or move the pending transmit alarm of an open device; when
      none is pending, or the device is closed, any write. */
  predicate CalmStore(cfg: Config, s: State, addr: nat, value: byte) {
    s.port.open && s.tx.active ==>
      match RegisterOf(cfg, addr)
      case 1 => false
      case 2 => CalmCmd(cfg, s, value)
      case _ => true
  }

  predicate Calm(cfg: Config, s: State, e: Stamped) {
    match e.ev
    case StoreEv(addr, value, rmw, opens) =>
      && (rmw ==> CalmStore(cfg, s, addr, s.regs.lastRead))
      && CalmStore(cfg, WriteBack(cfg, s, e.now, addr, rmw, opens), addr, value)
    case ResetEv => false
    case _ => true
  }

  /** Clock `due` has been reached, or the device is open and its transmit alarm is not set before. */
  ghost predicate HeldUntil(s: State, now: nat, due: nat) {
    now >= due || (s.port.open && s.tx.pending.Some? && s.tx.pending.value >= due)
  }

  lemma CalmCmdKeepsAlarm(cfg: Config, s: State, now: nat, value: byte, opens: bool)
    requires Mirror(cfg, s) && s.port.open && s.tx.active && CalmCmd(cfg, s, value)
    ensures var t := WriteCmd(cfg, s, now, value, opens);
            t.tx.pending == s.tx.pending && t.tx.active && t.port.open
  {
  }

  lemma CalmKeepsAlarm(cfg: Config, s: State, now: nat, addr: nat, value: byte, opens: bool)
    requires Mirror(cfg, s) && s.port.open && s.tx.active && CalmStore(cfg, s, addr, value)
    ensures var t := StorePlain(cfg, s, now, addr, value, opens);
            t.tx.pending == s.tx.pending && t.tx.active && t.port.open
  {
    match RegisterOf(cfg, addr) {
      case 1 =>
      case 2 => CalmCmdKeepsAlarm(cfg, s, now, value, opens);
      case _ =>
    }
  }

  lemma StoreHolds(cfg: Config, s: State, e: Stamped, due: nat)
    requires Mirror(cfg, s) && e.ev.StoreEv? && Calm(cfg, s, e) && HeldUntil(s, e.now, due)
    ensures HeldUntil(Step(cfg, s, e), e.now, due)
  {
    var StoreEv(addr, value, rmw, opens) := e.ev;
    if e.now < due {
      if rmw {
        CalmKeepsAlarm(cfg, s, e.now - 1, addr, s.regs.lastRead, opens);
        MirrorStore(cfg, s, e.now - 1, addr, s.regs.lastRead, opens);
      }
      CalmKeepsAlarm(cfg, WriteBack(cfg, s, e.now, addr, rmw, opens), e.now, addr, value, opens);
    }
  }

  lemma StepHolds(cfg: Config, s: State, e: Stamped, due: nat)
    requires Mirror(cfg, s) && Enabled(s, e) && Calm(cfg, s, e) && HeldUntil(s, e.now, due)
    ensures HeldUntil(Step(cfg, s, e), e.now, due)
  {
    if e.ev.StoreEv? {
      StoreHolds(cfg, s, e, due);
    }
  }

  /** From log position `n` on nothing is sent, except that a byte may be sent at `n` itself by the
      transmit alarm, the next one then waiting for the ticks recorded with it. */
  ghost predicate SendsAtMost(s: State, t: State, now: nat) {
    && s.log <= t.log
    && forall k :: |s.log| <= k < |t.log| && t.log[k].Sent? ==>
         && k == |s.log|
         && s.tx.state == DR_WRITTEN && s.port.open && s.tx.pending.Some? && s.tx.pending.value <= now
         && t.log[k].clk == now && t.port.open
         && t.tx.pending == Some(now + t.log[k].ticks)
  }

  ghost predicate SendsNothing(s: State, t: State) {
    s.log <= t.log && forall k :: |s.log| <= k < |t.log| ==> !t.log[k].Sent?
  }

  lemma WriteCmdSends(cfg: Config, s: State, now: nat, value: byte, opens: bool)
    ensures SendsNothing(s, WriteCmd(cfg, s, now, value, opens))
  {
  }

  lemma ProgrammedResetSends(cfg: Config, s: State, now: nat)
    ensures SendsNothing(s, ProgrammedReset(cfg, s, now))
  {
  }

  lemma StorePlainSends(cfg: Config, s: State, now: nat, addr: nat, value: byte, opens: bool)
    ensures SendsNothing(s, StorePlain(cfg, s, now, addr, value, opens))
  {
    match RegisterOf(cfg, addr) {
      case 1 => ProgrammedResetSends(cfg, s, now);
      case 2 => WriteCmdSends(cfg, s, now, value, opens);
      case _ =>
    }
  }

  lemma WriteBackSends(cfg: Config, s: State, now: Tick, addr: nat, rmw: bool, opens: bool)
    ensures SendsNothing(s, WriteBack(cfg, s, now, addr, rmw, opens))
  {
    StorePlainSends(cfg, s, now - 1, addr, s.regs.lastRead, opens);
  }

  lemma StoreSends(cfg: Config, s: State, now: Tick, addr: nat, value: byte, rmw: bool, opens: bool)
    ensures SendsNothing(s, Store(cfg, s, now, addr, value, rmw, opens))
  {
    var s1 := WriteBack(cfg, s, now, addr, rmw, opens);
    WriteBackSends(cfg, s, now, addr, rmw, opens);
    StorePlainSends(cfg, s1, now, addr, value, opens);
    TwiceNothing(s, s1, Store(cfg, s, now, addr, value, rmw, opens));
  }

  lemma TwiceNothing(s: State, t: State, u: State)
    requires SendsNothing(s, t) && SendsNothing(t, u)
    ensures SendsNothing(s, u)
  {
    assert forall k :: 0 <= k < |t.log| ==> u.log[k] == t.log[k];
  }

  lemma ReadSends(cfg: Config, s: State, addr: nat, dcd: bool, dsr: bool)
    ensures SendsNothing(s, Read(cfg, s, addr, dcd, dsr))
  {
  }

  lemma FireTxSends(cfg: Config, s: State, now: nat)
    requires s.tx.pending.Some? && s.tx.pending.value <= now
    ensures SendsAtMost(s, FireTx(cfg, s, now), now)
  {
  }

  lemma FireRxSends(cfg: Config, s: State, now: nat, input: Option<byte>)
    ensures SendsAtMost(s, FireRx(cfg, s, now, input), now)
  {
  }

  lemma SendStep(cfg: Config, s: State, e: Stamped)
    requires Enabled(s, e) && !e.ev.ResetEv?
    ensures SendsAtMost(s, Step(cfg, s, e), e.now)
  {
    match e.ev {
      case StoreEv(addr, value, rmw, opens) => StoreSends(cfg, s, e.now, addr, value, rmw, opens);
      case ReadEv(addr, dcd, dsr) => ReadSends(cfg, s, addr, dcd, dsr);
      case TxAlarm => FireTxSends(cfg, s, e.now);
      case RxAlarm(input) => FireRxSends(cfg, s, e.now, input);
    }
  }

  /** The clock does not run backwards within the run. */
  ghost predicate Timed(from: nat, run: seq<Stamped>) {
    forall i :: 0 <= i < |run| ==> from <= run[i].now && (i > 0 ==> run[i - 1].now <= run[i].now)
  }

  ghost predicate CalmRun(cfg: Config, s: State, run: seq<Stamped>) {
    run == []
    || (CalmRun(cfg, s, run[..|run| - 1])
        && Enabled(After(cfg, s, run[..|run| - 1]), run[|run| - 1])
        && Calm(cfg, After(cfg, s, run[..|run| - 1]), run[|run| - 1]))
  }

  function EndOf(from: nat, run: seq<Stamped>): nat {
    if run == [] then from else run[|run| - 1].now
  }

  /** From log position `base` on, sends are spaced, and the next one is held back accordingly. */
  ghost predicate Spaced(s: State, base: nat, now: nat) {
    && (forall i, j :: base <= i < j < |s.log| && s.log[i].Sent? && s.log[j].Sent? ==>
          s.log[i].clk + s.log[i].ticks <= s.log[j].clk)
    && (forall i :: base <= i < |s.log| && s.log[i].Sent? ==>
          HeldUntil(s, now, s.log[i].clk + s.log[i].ticks))
  }

  lemma SpacedStep(cfg: Config, s: State, base: nat, e: Stamped)
    requires Mirror(cfg, s) && Enabled(s, e) && Calm(cfg, s, e) && Spaced(s, base, e.now)
    ensures Spaced(Step(cfg, s, e), base, e.now)
  {
    SendStep(cfg, s, e);
    forall i | base <= i < |s.log| && s.log[i].Sent?
      ensures HeldUntil(Step(cfg, s, e), e.now, s.log[i].clk + s.log[i].ticks)
    {
      StepHolds(cfg, s, e, s.log[i].clk + s.log[i].ticks);
    }
    SpacedLonger(s, Step(cfg, s, e), base, e.now);
  }

  /** At most one send more, and the holds stand. */
  lemma SpacedLonger(s: State, t: State, base: nat, now: nat)
    requires Spaced(s, base, now) && SendsAtMost(s, t, now)
    requires forall i :: base <= i < |s.log| && s.log[i].Sent? ==> HeldUntil(t, now, s.log[i].clk + s.log[i].ticks)
    ensures Spaced(t, base, now)
  {
    assert forall i :: 0 <= i < |s.log| ==> t.log[i] == s.log[i];
  }

  /** In a run without resets in which no write cancels a pending transmit alarm, any two bytes are
      sent at least as many cycles apart as the character time in force at the first of them. */
  lemma {:induction false} Paced(cfg: Config, s: State, from: nat, run: seq<Stamped>)
    requires Mirror(cfg, s) && Timed(from, run) && CalmRun(cfg, s, run)
    ensures Mirror(cfg, After(cfg, s, run)) && Spaced(After(cfg, s, run), |s.log|, EndOf(from, run))
  {
    if run != [] {
      var front, e := run[..|run| - 1], run[|run| - 1];
      assert Timed(from, front) && EndOf(from, front) <= e.now;
      Paced(cfg, s, from, front);
      var u := After(cfg, s, front);
      MirrorStep(cfg, u, e);
      SpacedStep(cfg, u, |s.log|, e);
    }
  }
}
