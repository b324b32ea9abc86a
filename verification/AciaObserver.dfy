/**
 The ACIA as its two ends see it. An observer of the log keeps a one-place transmit slot, a
 one-place receive buffer and an interrupt flag; the chip's status bits agree with it in every run,
 and what is sent, received and lost can be read off the log.
 */
module AciaObserver {
  import opened Basics
  import opened AciaSpec
  import opened AciaRuns

  /** What an observer of the log knows: the byte waiting to be sent, whether a byte accepted for
      sending has still not been sent, the byte in the receive buffer, the bytes discarded since
      the overrun flag was last cleared, and whether an interrupt cause is unacknowledged. */
  datatype Obs = Obs(slot: Option<byte>, owed: bool, occupant: Option<byte>, lost: nat, irq: bool)

  const NOTHING := Obs(None, false, None, 0, false)

  function Next(o: Obs, e: Entry): Obs {
    match e
    case Write(v, accepted) =>
      o.(slot := if accepted || o.slot.Some? then Some(v) else None, owed := o.owed || accepted)
    case Sent(_, _, _, _) => o.(slot := None, owed := false)
    case TxLost => o.(slot := None)
    case TxAbort => o.(slot := None)
    case Fetch(b, mask) =>
      if o.occupant.Some? then o.(lost := o.lost + 1) else o.(occupant := Some(Masked(b, mask)))
    case DataRead(_, _) => o.(occupant := None, lost := 0)
    case StatusRead(_) => o.(irq := false)
    case Irq => o.(irq := true)
    case ProgReset => o.(slot := None, lost := 0, irq := false)
    case HwReset => NOTHING
  }

  function Observe(log: seq<Entry>): Obs {
    if log == [] then NOTHING else Next(Observe(log[..|log| - 1]), log[|log| - 1])
  }

  lemma ObserveSnoc(log: seq<Entry>, e: Entry)
    ensures Observe(log + [e]) == Next(Observe(log), e)
  {
    assert (log + [e])[..|log + [e]| - 1] == log;
  }

  /** What the observer expects of an entry. */
  ghost predicate Expected(o: Obs, e: Entry) {
    match e
    case Sent(_, v, mask, _) => o.slot.Some? && v == Masked(o.slot.value, mask)
    case TxLost => o.slot.Some?
    case DataRead(v, unread) => (unread <==> o.occupant.Some?) && (unread ==> v == o.occupant.value)
    case StatusRead(c) =>
      && (c / 4 % 2 == 1 <==> o.lost > 0)
      && (c / 8 % 2 == 1 <==> o.occupant.Some?)
      && (c / 16 % 2 == 0 <==> o.owed)
      && (c / 128 == 1 <==> o.irq)
    case _ => true
  }

  ghost predicate Faithful(log: seq<Entry>) {
    log == [] || (Faithful(log[..|log| - 1]) && Expected(Observe(log[..|log| - 1]), log[|log| - 1]))
  }

  lemma FaithfulSnoc(log: seq<Entry>, e: Entry)
    ensures Faithful(log + [e]) <==> Faithful(log) && Expected(Observe(log), e)
  {
    assert (log + [e])[..|log + [e]| - 1] == log;
  }

  /** The chip agrees with the observer. */
  ghost predicate Agrees(s: State, o: Obs) {
    && (s.tx.state == DR_WRITTEN <==> o.slot.Some?)
    && (o.slot.Some? ==> s.tx.data == o.slot.value)
    && (s.status.empty <==> !o.owed)
    && (s.status.full <==> o.occupant.Some?)
    && (o.occupant.Some? ==> s.rx.data == o.occupant.value)
    && (s.status.overrun <==> o.lost > 0)
    && (s.irq.flag <==> o.irq)
  }

  ghost predicate Refines(s: State) {
    && Faithful(s.log)
    && Agrees(s, Observe(s.log))
    && NO_TRANSMIT <= s.tx.state <= DR_WRITTEN
  }

  /** An operation that logs one entry refines the observer when the entry is expected and the new
      chip agrees with the observer's next state. */
  lemma RefineOne(s: State, t: State, e: Entry)
    requires Refines(s) && t.log == s.log + [e] && Expected(Observe(s.log), e)
    requires Agrees(t, Next(Observe(s.log), e)) && NO_TRANSMIT <= t.tx.state <= DR_WRITTEN
    ensures Refines(t)
  {
    ObserveSnoc(s.log, e);
    FaithfulSnoc(s.log, e);
  }

  lemma RefineNone(s: State, t: State)
    requires Refines(s) && t.log == s.log && NO_TRANSMIT <= t.tx.state <= DR_WRITTEN
    requires Agrees(t, Observe(s.log))
    ensures Refines(t)
  {
  }

  lemma StatusByteBits(s: Status, irq: bool)
    ensures StatusByte(s, irq) / 4 % 2 == Num(s.overrun)
    ensures StatusByte(s, irq) / 8 % 2 == Num(s.full)
    ensures StatusByte(s, irq) / 16 % 2 == Num(s.empty)
    ensures StatusByte(s, irq) / 128 == Num(irq)
  {
    var c, p, f := StatusByte(s, irq), Num(s.parity), Num(s.framing);
    var o, u, e, d, m, i := Num(s.overrun), Num(s.full), Num(s.empty), Num(s.dcd), Num(s.dsr), Num(irq);
    assert c / 4 == o + 2 * (u + 2 * (e + 2 * (d + 2 * (m + 2 * i))));
    assert c / 8 == u + 2 * (e + 2 * (d + 2 * (m + 2 * i)));
    assert c / 16 == e + 2 * (d + 2 * (m + 2 * i));
  }

  /** Neither the handshake nor the speed setting touches anything the observer sees. */
  lemma HandshakeUnseen(cfg: Config, s: State, now: nat)
    ensures var t := SetHandshake(cfg, s, now);
            t.log == s.log && t.status == s.status && t.irq == s.irq
            && t.tx.state == s.tx.state && t.tx.data == s.tx.data && t.rx.data == s.rx.data
  {
  }

  lemma OpenSeen(cfg: Config, s: State, now: nat, opens: bool)
    requires Refines(s)
    ensures Refines(Open(cfg, s, now, opens))
  {
    if Transmitter(s.regs.cmd) == TX_WITH_IRQ {
      RefineOne(s, Open(cfg, s, now, opens), TxAbort);
    } else {
      RefineNone(s, Open(cfg, s, now, opens));
    }
  }

  lemma RefineHandshake(cfg: Config, s: State, now: nat)
    requires Refines(s)
    ensures Refines(SetHandshake(cfg, s, now))
  {
    HandshakeUnseen(cfg, s, now);
  }

  lemma RefineWriteCmd(cfg: Config, s: State, now: nat, value: byte, opens: bool)
    requires Refines(s)
    ensures Refines(WriteCmd(cfg, s, now, value, opens))
  {
    var s1 := s.(regs := s.regs.(cmd := value));
    if Dtr(value) && !s.port.open {
      OpenSeen(cfg, s1, now, opens);
      RefineHandshake(cfg, Open(cfg, s1, now, opens), now);
    } else if s.port.open && !Dtr(value) && !cfg.ip232 {
      RefineHandshake(cfg, s1.(port := s.port.(open := false), tx := ClearTxAlarm(s.tx)), now);
    } else {
      RefineHandshake(cfg, s1, now);
    }
  }

  lemma RefineProgrammedReset(cfg: Config, s: State, now: nat)
    requires Refines(s)
    ensures Refines(ProgrammedReset(cfg, s, now))
  {
    var s1 := s.(
      port := Close(cfg, s.port),
      status := s.status.(overrun := false),
      regs := s.regs.(cmd := s.regs.cmd / 32 * 32),
      tx := ClearTxAlarm(s.tx).(state := NO_TRANSMIT),
      irq := SetIrq(cfg, s.irq, false),
      log := s.log + [ProgReset]);
    RefineOne(s, s1, ProgReset);
    RefineHandshake(cfg, s1, now);
  }

  lemma RefineStore(cfg: Config, s: State, now: nat, addr: nat, value: byte, opens: bool)
    requires Refines(s)
    ensures Refines(StorePlain(cfg, s, now, addr, value, opens))
  {
    match RegisterOf(cfg, addr) {
      case 0 => RefineOne(s, WriteData(s, now, value), Write(value, Dtr(s.regs.cmd)));
      case 1 => RefineProgrammedReset(cfg, s, now);
      case 2 => RefineWriteCmd(cfg, s, now, value, opens);
      case 3 => RefineNone(s, WriteCtrl(cfg, s, now, value));
      case 7 => RefineNone(s, WriteEctrl(cfg, s, now, value));
      case _ =>
    }
  }

  lemma RefineReadStatus(cfg: Config, s: State, dcd: bool, dsr: bool)
    requires Refines(s)
    ensures Refines(ReadStatus(cfg, s, dcd, dsr))
  {
    var status := ModemStatus(cfg, s, dcd, dsr);
    StatusByteBits(status, s.irq.flag);
    RefineOne(s, ReadStatus(cfg, s, dcd, dsr), StatusRead(StatusByte(status, s.irq.flag)));
  }

  lemma RefineRead(cfg: Config, s: State, addr: nat, dcd: bool, dsr: bool)
    requires Refines(s)
    ensures Refines(Read(cfg, s, addr, dcd, dsr))
  {
    match RegisterOf(cfg, addr) {
      case 0 => RefineOne(s, ReadData(s), DataRead(s.rx.data, s.status.full));
      case 1 => RefineReadStatus(cfg, s, dcd, dsr);
      case 2 => RefineNone(s, Read(cfg, s, addr, dcd, dsr));
      case 3 => RefineNone(s, Read(cfg, s, addr, dcd, dsr));
      case _ =>
    }
  }

  lemma RefineIrq(cfg: Config, s: State)
    requires Refines(s)
    ensures Refines(RaiseIrq(cfg, s))
  {
    RefineOne(s, RaiseIrq(cfg, s), Irq);
  }

  lemma RefineTransmit(s: State, now: nat, tx: Tx)
    requires Refines(s) && tx.data == s.tx.data
    requires tx.state == if s.tx.state != NO_TRANSMIT then s.tx.state - 1 else s.tx.state
    ensures Refines(Transmit(s, now).(tx := tx))
  {
    var t := Transmit(s, now).(tx := tx);
    if s.tx.state == DR_WRITTEN && s.port.open {
      RefineOne(s, t, Sent(now, Masked(s.tx.data, s.frame.datamask), s.frame.datamask, s.frame.ticks));
    } else if s.tx.state == DR_WRITTEN {
      RefineOne(s, t, TxLost);
    } else {
      RefineNone(s, t);
    }
  }

  lemma RefineFireTx(cfg: Config, s: State, now: nat)
    requires Refines(s)
    ensures Refines(FireTx(cfg, s, now))
  {
    var t := FireTx(cfg, s, now);
    RefineTransmit(s, now, t.tx);
    RefineIrq(cfg, Transmit(s, now).(tx := t.tx));
  }

  lemma RefineFireRx(cfg: Config, s: State, now: nat, input: Option<byte>)
    requires Refines(s)
    ensures Refines(FireRx(cfg, s, now, input))
  {
    var t := FireRx(cfg, s, now, input);
    if s.port.open && input.Some? {
      var s1 := Receive(s, input.value).(rx := t.rx);
      RefineOne(s, s1, Fetch(input.value, s.frame.datamask));
      RefineIrq(cfg, s1);
    } else {
      RefineNone(s, t);
    }
  }

  lemma RefineReset(cfg: Config, s: State, now: nat)
    requires Faithful(s.log)
    ensures Refines(Reset(cfg, s, now))
  {
    ObserveSnoc(s.log, HwReset);
    FaithfulSnoc(s.log, HwReset);
  }

  lemma RefineStep(cfg: Config, s: State, e: Stamped)
    requires Refines(s)
    ensures Refines(Step(cfg, s, e))
  {
    match e.ev {
      case StoreEv(addr, value, rmw, opens) =>
        if rmw {
          RefineStore(cfg, s, e.now - 1, addr, s.regs.lastRead, opens);
        }
        RefineStore(cfg, WriteBack(cfg, s, e.now, addr, rmw, opens), e.now, addr, value, opens);
      case ReadEv(addr, dcd, dsr) => RefineRead(cfg, s, addr, dcd, dsr);
      case TxAlarm => RefineFireTx(cfg, s, e.now);
      case RxAlarm(input) => RefineFireRx(cfg, s, e.now, input);
      case ResetEv => RefineReset(cfg, s, e.now);
    }
  }

  /** Over every run from reset, whatever the program and the two ends of the line do. */
  lemma {:induction false} RefinesAlways(cfg: Config, run: seq<Stamped>)
    ensures Refines(After(cfg, Start(cfg), run))
  {
    if run == [] {
      RefineReset(cfg, PowerOn(), 6);
    } else {
      RefinesAlways(cfg, run[..|run| - 1]);
      RefineStep(cfg, After(cfg, Start(cfg), run[..|run| - 1]), run[|run| - 1]);
    }
  }
}
