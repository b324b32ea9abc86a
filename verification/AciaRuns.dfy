/** What holds over every run of the ACIA. */
module AciaRuns {
  import opened Basics
  import opened AciaSpec

  // ---------------------------------------------------------------- runs

  /** One event of a run, with what the environment contributes to it. */
  datatype Event =
    | StoreEv(addr: nat, value: byte, rmw: bool, opens: bool)
    | ReadEv(addr: nat, modemDcd: bool, modemDsr: bool)
    | TxAlarm
    | RxAlarm(input: Option<byte>)
    | ResetEv

  datatype Stamped = At(now: Tick, ev: Event)

  function Step(cfg: Config, s: State, e: Stamped): State {
    match e.ev
    case StoreEv(addr, value, rmw, opens) => Store(cfg, s, e.now, addr, value, rmw, opens)
    case ReadEv(addr, dcd, dsr) => Read(cfg, s, addr, dcd, dsr)
    case TxAlarm => FireTx(cfg, s, e.now)
    case RxAlarm(input) => FireRx(cfg, s, e.now, input)
    case ResetEv => Reset(cfg, s, e.now)
  }

  /** The state after a run. */
  function After(cfg: Config, s: State, run: seq<Stamped>): State {
    if run == [] then s else Step(cfg, After(cfg, s, run[..|run| - 1]), run[|run| - 1])
  }

  /** Alarms fire only when they are pending and their clock has been reached. */
  ghost predicate Enabled(s: State, e: Stamped) {
    && (e.ev.TxAlarm? ==> s.tx.pending.Some? && s.tx.pending.value <= e.now)
    && (e.ev.RxAlarm? ==> s.rx.pending.Some? && s.rx.pending.value <= e.now)
  }

  /** A run in which every alarm that fires was due. */
  ghost predicate Legal(cfg: Config, s: State, run: seq<Stamped>) {
    run == []
    || (Legal(cfg, s, run[..|run| - 1]) && Enabled(After(cfg, s, run[..|run| - 1]), run[|run| - 1]))
  }

  lemma AfterSnoc(cfg: Config, s: State, run: seq<Stamped>, e: Stamped)
    ensures After(cfg, s, run + [e]) == Step(cfg, After(cfg, s, run), e)
    ensures Legal(cfg, s, run + [e]) <==> Legal(cfg, s, run) && Enabled(After(cfg, s, run), e)
  {
    assert (run + [e])[..|run + [e]| - 1] == run;
  }

  /** A run of one event or none */
  lemma AfterOne(cfg: Config, s: State, run: seq<Stamped>)
    requires |run| <= 1
    ensures After(cfg, s, run) == if run == [] then s else Step(cfg, s, run[0])
    ensures Legal(cfg, s, run) <==> run == [] || Enabled(s, run[0])
  {
    if run != [] {
      assert run[..0] == [];
      assert After(cfg, s, run[..0]) == s;
    }
  }

  /** A run that goes on. */
  lemma {:induction false} AfterAfter(cfg: Config, s: State, run: seq<Stamped>, more: seq<Stamped>)
    ensures After(cfg, s, run + more) == After(cfg, After(cfg, s, run), more)
  {
    if more == [] {
      assert run + more == run;
    } else {
      AfterAfter(cfg, s, run, more[..|more| - 1]);
      assert (run + more)[..|run + more| - 1] == run + more[..|more| - 1];
    }
  }

  lemma {:induction false} LegalAfter(cfg: Config, s: State, run: seq<Stamped>, more: seq<Stamped>)
    ensures Legal(cfg, s, run + more) <==> Legal(cfg, s, run) && Legal(cfg, After(cfg, s, run), more)
  {
    if more == [] {
      assert run + more == run;
    } else {
      var front := more[..|more| - 1];
      LegalAfter(cfg, s, run, front);
      AfterAfter(cfg, s, run, front);
      assert (run + more)[..|run + more| - 1] == run + front;
    }
  }

  /** The chip as it is once the machine has been reset for the first time. */
  function Start(cfg: Config): State {
    Reset(cfg, PowerOn(), 6)
  }

  // ---------------------------------------------------------------- the mirrored alarm flags

  /** The two "active" flags and clocks mirror the alarm context; the transmit state is one of
      three; a byte waiting to be sent keeps the transmit-empty bit clear. */
  ghost predicate Mirror(cfg: Config, s: State) {
    && (s.tx.active <==> s.tx.pending.Some?)
    && (s.tx.pending.Some? ==> s.tx.pending.value == s.tx.clk)
    && (s.rx.active ==> s.rx.pending.Some?)
    && (s.rx.pending.Some? ==> s.rx.pending.value == s.rx.clk)
    && NO_TRANSMIT <= s.tx.state <= DR_WRITTEN
    && (s.tx.state == DR_WRITTEN ==> !s.status.empty)
    && s.frame.datamask == MaskOf(s.regs.ctrl)
    && (cfg.hasInt ==> s.irq.line == s.irq.flag)
  }

  lemma MirrorHandshake(cfg: Config, s: State, now: nat)
    requires Mirror(cfg, s)
    ensures Mirror(cfg, SetHandshake(cfg, s, now))
  {
  }

  lemma MirrorWriteCmd(cfg: Config, s: State, now: nat, value: byte, opens: bool)
    requires Mirror(cfg, s)
    ensures Mirror(cfg, WriteCmd(cfg, s, now, value, opens))
  {
    var s1 := s.(regs := s.regs.(cmd := value));
    if Dtr(value) && !s.port.open {
      MirrorHandshake(cfg, Open(cfg, s1, now, opens), now);
    } else if s.port.open && !Dtr(value) && !cfg.ip232 {
      MirrorHandshake(cfg, s1.(port := s.port.(open := false), tx := ClearTxAlarm(s.tx)), now);
    } else {
      MirrorHandshake(cfg, s1, now);
    }
  }

  lemma MirrorProgrammedReset(cfg: Config, s: State, now: nat)
    requires Mirror(cfg, s)
    ensures Mirror(cfg, ProgrammedReset(cfg, s, now))
  {
  }

  lemma MirrorStore(cfg: Config, s: State, now: nat, addr: nat, value: byte, opens: bool)
    requires Mirror(cfg, s)
    ensures Mirror(cfg, StorePlain(cfg, s, now, addr, value, opens))
  {
    match RegisterOf(cfg, addr) {
      case 0 =>
      case 1 => MirrorProgrammedReset(cfg, s, now);
      case 2 => MirrorWriteCmd(cfg, s, now, value, opens);
      case 3 =>
      case 7 =>
      case _ =>
    }
  }

  lemma MirrorFireTx(cfg: Config, s: State, now: nat)
    requires Mirror(cfg, s)
    ensures Mirror(cfg, FireTx(cfg, s, now))
  {
  }

  lemma MirrorFireRx(cfg: Config, s: State, now: nat, input: Option<byte>)
    requires Mirror(cfg, s)
    ensures Mirror(cfg, FireRx(cfg, s, now, input))
  {
  }

  lemma MirrorReset(cfg: Config, s: State, now: nat)
    requires cfg.hasInt ==> s.irq.line == s.irq.flag
    ensures Mirror(cfg, Reset(cfg, s, now))
  {
  }

  lemma MirrorStep(cfg: Config, s: State, e: Stamped)
    requires Mirror(cfg, s)
    ensures Mirror(cfg, Step(cfg, s, e))
  {
    match e.ev {
      case StoreEv(addr, value, rmw, opens) =>
        if rmw {
          MirrorStore(cfg, s, e.now - 1, addr, s.regs.lastRead, opens);
        }
        MirrorStore(cfg, WriteBack(cfg, s, e.now, addr, rmw, opens), e.now, addr, value, opens);
      case ReadEv(addr, dcd, dsr) =>
      case TxAlarm => MirrorFireTx(cfg, s, e.now);
      case RxAlarm(input) => MirrorFireRx(cfg, s, e.now, input);
      case ResetEv => MirrorReset(cfg, s, e.now);
    }
  }

  lemma {:induction false} MirrorAfter(cfg: Config, s: State, run: seq<Stamped>)
    requires Mirror(cfg, s)
    ensures Mirror(cfg, After(cfg, s, run))
  {
    if run != [] {
      MirrorAfter(cfg, s, run[..|run| - 1]);
      MirrorStep(cfg, After(cfg, s, run[..|run| - 1]), run[|run| - 1]);
    }
  }

  /** Over every run from reset. */
  lemma MirrorAlways(cfg: Config, run: seq<Stamped>)
    ensures Mirror(cfg, After(cfg, Start(cfg), run))
  {
    MirrorReset(cfg, PowerOn(), 6);
    MirrorAfter(cfg, Start(cfg), run);
  }

  // ---------------------------------------------------------------- the handshake lines

  /** RTS and DTR are driven as the command register says, and the receiver is on exactly with RTS. */
  ghost predicate Lines(s: State) {
    && (s.port.rts <==> Transmitter(s.regs.cmd) != NO_RTS)
    && (s.port.dtr <==> Dtr(s.regs.cmd))
    && (s.rx.active <==> s.port.rts)
  }

  lemma WriteCmdLines(cfg: Config, s: State, now: nat, value: byte, opens: bool)
    ensures Lines(WriteCmd(cfg, s, now, value, opens))
  {
  }

  lemma ProgrammedResetLines(cfg: Config, s: State, now: nat)
    ensures Lines(ProgrammedReset(cfg, s, now))
  {
    ClearedCommand(s.regs.cmd);
  }

  lemma StoreLines(cfg: Config, s: State, now: nat, addr: nat, value: byte, opens: bool)
    requires Lines(s)
    ensures Lines(StorePlain(cfg, s, now, addr, value, opens))
  {
    match RegisterOf(cfg, addr) {
      case 1 => ProgrammedResetLines(cfg, s, now);
      case 2 => WriteCmdLines(cfg, s, now, value, opens);
      case _ =>
    }
  }

  /** A programmed reset switches DTR and RTS off. */
  lemma ClearedCommand(cmd: byte)
    ensures !Dtr(cmd / 32 * 32) && Transmitter(cmd / 32 * 32) == NO_RTS
  {
  }

  /** Over every run the lines follow the command register. */
  lemma LinesAlways(cfg: Config, run: seq<Stamped>)
    ensures Lines(After(cfg, Start(cfg), run))
  {
    LinesAfter(cfg, Start(cfg), run);
  }

  lemma {:induction false} LinesAfter(cfg: Config, s: State, run: seq<Stamped>)
    requires Lines(s)
    ensures Lines(After(cfg, s, run))
  {
    if run != [] {
      LinesAfter(cfg, s, run[..|run| - 1]);
      LinesStep(cfg, After(cfg, s, run[..|run| - 1]), run[|run| - 1]);
    }
  }

  lemma LinesStep(cfg: Config, s: State, e: Stamped)
    requires Lines(s)
    ensures Lines(Step(cfg, s, e))
  {
    match e.ev {
      case StoreEv(addr, value, rmw, opens) =>
        if rmw {
          StoreLines(cfg, s, e.now - 1, addr, s.regs.lastRead, opens);
        }
        StoreLines(cfg, WriteBack(cfg, s, e.now, addr, rmw, opens), e.now, addr, value, opens);
      case _ =>
    }
  }

  /** An open device has DTR on, unless it is one that is never closed. */
  predicate Attended(cfg: Config, s: State) {
    s.port.open ==> Dtr(s.regs.cmd) || cfg.ip232
  }

  lemma StoreAttended(cfg: Config, s: State, now: nat, addr: nat, value: byte, opens: bool)
    requires Attended(cfg, s)
    ensures Attended(cfg, StorePlain(cfg, s, now, addr, value, opens))
  {
  }

  lemma AttendedStep(cfg: Config, s: State, e: Stamped)
    requires Attended(cfg, s)
    ensures Attended(cfg, Step(cfg, s, e))
  {
    if e.ev.StoreEv? {
      var StoreEv(addr, value, rmw, opens) := e.ev;
      if rmw {
        StoreAttended(cfg, s, e.now - 1, addr, s.regs.lastRead, opens);
      }
      StoreAttended(cfg, WriteBack(cfg, s, e.now, addr, rmw, opens), e.now, addr, value, opens);
    }
  }

  lemma {:induction false} AttendedAfter(cfg: Config, s: State, run: seq<Stamped>)
    requires Attended(cfg, s)
    ensures Attended(cfg, After(cfg, s, run))
  {
    if run != [] {
      AttendedAfter(cfg, s, run[..|run| - 1]);
      AttendedStep(cfg, After(cfg, s, run[..|run| - 1]), run[|run| - 1]);
    }
  }

  /** What a read returns is what the log says was read, and what a read-modify-write instruction would
      write back. */
  lemma ReadReturns(cfg: Config, s: State, addr: nat, dcd: bool, dsr: bool)
    ensures var t, v := Read(cfg, s, addr, dcd, dsr), ReadValue(cfg, s, addr, dcd, dsr);
            && (RegisterOf(cfg, addr) == 0 ==> t.log == s.log + [DataRead(v, s.status.full)])
            && (RegisterOf(cfg, addr) == 1 ==> t.log == s.log + [StatusRead(v)])
            && (RegisterOf(cfg, addr) < 4 ==> t.regs.lastRead == v)
            && (RegisterOf(cfg, addr) > 1 ==> t.log == s.log)
  {
  }

  // ---------------------------------------------------------------- the alarm callbacks

  /** Both callbacks keep to their own alarm and leave it unset or later than now, which is what the
      dispatch loop of the CPU needs of them. */
  lemma CallbacksServeThemselves(cfg: Config, s: State, now: nat, input: Option<byte>)
    requires Mirror(cfg, s)
    ensures var t := FireTx(cfg, s, now);
            t.rx.pending == s.rx.pending
            && (t.tx.pending.Some? ==> now < t.tx.pending.value == now + s.frame.ticks)
    ensures var t := FireRx(cfg, s, now, input);
            t.tx.pending == s.tx.pending
            && (t.rx.pending.Some? ==> now < t.rx.pending.value == now + s.frame.ticks)
  {
  }

  // ---------------------------------------------------------------- the receiver after RTS goes off

  /** The event does not program the transmitter bits to raise RTS. */
  ghost predicate KeepsRtsOff(cfg: Config, s: State, e: Stamped) {
    e.ev.StoreEv? && RegisterOf(cfg, e.ev.addr) == 2 ==>
      Transmitter(e.ev.value) == NO_RTS && (e.ev.rmw ==> Transmitter(s.regs.lastRead) == NO_RTS)
  }

  lemma RtsStaysOffStore(cfg: Config, s: State, now: nat, addr: nat, value: byte, opens: bool)
    requires !s.rx.active && Transmitter(s.regs.cmd) == NO_RTS
    requires RegisterOf(cfg, addr) == 2 ==> Transmitter(value) == NO_RTS
    ensures var t := StorePlain(cfg, s, now, addr, value, opens);
            !t.rx.active && Transmitter(t.regs.cmd) == NO_RTS && t.regs.lastRead == s.regs.lastRead
  {
  }

  lemma RtsStaysOff(cfg: Config, s: State, e: Stamped)
    requires !s.rx.active && Transmitter(s.regs.cmd) == NO_RTS && KeepsRtsOff(cfg, s, e)
    ensures !Step(cfg, s, e).rx.active && Transmitter(Step(cfg, s, e).regs.cmd) == NO_RTS
  {
    match e.ev {
      case StoreEv(addr, value, rmw, opens) =>
        if rmw {
          RtsStaysOffStore(cfg, s, e.now - 1, addr, s.regs.lastRead, opens);
        }
        RtsStaysOffStore(cfg, WriteBack(cfg, s, e.now, addr, rmw, opens), e.now, addr, value, opens);
      case _ =>
    }
  }

  ghost predicate KeepRtsOff(cfg: Config, s: State, run: seq<Stamped>) {
    run == []
    || (KeepRtsOff(cfg, s, run[..|run| - 1])
        && KeepsRtsOff(cfg, After(cfg, s, run[..|run| - 1]), run[|run| - 1]))
  }

  /** With RTS off, a receive alarm that is still pending is gone after its next firing, however
      much else happens before, unless RTS is raised first. */
  lemma {:induction false} OrphanedRxAlarm(cfg: Config, s: State, run: seq<Stamped>, now: Tick, input: Option<byte>)
    requires !s.rx.active && Transmitter(s.regs.cmd) == NO_RTS && KeepRtsOff(cfg, s, run)
    ensures !After(cfg, s, run).rx.active && Transmitter(After(cfg, s, run).regs.cmd) == NO_RTS
    ensures FireRx(cfg, After(cfg, s, run), now, input).rx.pending == None
  {
    if run != [] {
      OrphanedRxAlarm(cfg, s, run[..|run| - 1], now, input);
      RtsStaysOff(cfg, After(cfg, s, run[..|run| - 1]), run[|run| - 1]);
    }
  }
}
