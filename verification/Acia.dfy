/**
 The ACIA as it is written in aciacore.c: one object that register accesses and alarm callbacks
 update step by step, with two alarms of its own in the alarm context of the CPU. The fields of its
 struct are grouped as in `AciaSpec`.
 */
module AciaChip {
  import opened Basics
  import opened Alarms
  import opened AciaSpec
  import AciaRuns
  import AlarmSpec

  /** `in_tx`, `txdata`, `alarm_active_tx`, `alarm_clk_tx` */
  datatype TxFields = TxFields(state: int, data: byte, active: bool, clk: nat)

  /** `rxdata`, `alarm_active_rx`, `alarm_clk_rx` */
  datatype RxFields = RxFields(data: byte, active: bool, clk: nat)

  /** No alarm that is set at this clock for a character time ahead gets to the end of the clock. */
  predicate InTime(now: nat) {
    now + 0x8000_0000 <= AlarmSpec.CLOCK_MAX
  }

  function EntryOf<A(==)>(m: AlarmSpec.Schedule<A>, a: A): Option<nat> {
    if a in m then Some(m[a]) else None
  }

  class Acia {
    const cfg: Config
    const context: AlarmContext
    const alarmTx: Alarm
    const alarmRx: Alarm

    var regs: Regs
    var frame: Frame
    var tx: TxFields
    var rx: RxFields
    var port: Port
    var status: Status
    var irq: Interrupt

    ghost var log: seq<Entry>

    /** The two alarms belong to the context, which has no more alarms than slots. */
    ghost predicate Valid()
      reads context`numPending, context`table, context`pending, context`nextClk, context`nextIdx, context`members,
            context.members`pendingIdx, context.pendingAlarms
    {
      && context.PendingOk()
      && alarmTx in context.members && alarmRx in context.members && alarmTx != alarmRx
      && |context.members| <= AlarmSpec.MAX_PENDING
    }

    /** The chip's state, with what the context has for its two alarms. */
    ghost function Abs(): State
      reads this, context`pending
    {
      var m := context.pending;
      State(regs, frame, Tx(tx.state, tx.data, tx.active, tx.clk, EntryOf(m, alarmTx)),
            Rx(rx.data, rx.active, rx.clk, EntryOf(m, alarmRx)), port, status, irq, log)
    }

    /** What the context has for everybody else. */
    ghost function Others(): AlarmSpec.Schedule<Alarm>
      reads context`pending
    {
      context.pending - {alarmTx, alarmRx}
    }

    /** `acia_preinit`, and what `myacia_init` does once it has its alarms */
    constructor (cfg: Config, context: AlarmContext, alarmTx: Alarm, alarmRx: Alarm)
      requires context.PendingOk() && |context.members| <= AlarmSpec.MAX_PENDING
      requires alarmTx in context.members && alarmRx in context.members && alarmTx != alarmRx
      requires alarmTx !in context.pending && alarmRx !in context.pending
      ensures this.cfg == cfg && this.context == context && this.alarmTx == alarmTx && this.alarmRx == alarmRx
      ensures Valid() && Abs() == PowerOn()
    {
      this.cfg, this.context, this.alarmTx, this.alarmRx := cfg, context, alarmTx, alarmRx;
      regs, frame := Regs(0, 0, 0, 0), Frame(21111, 0);
      tx, rx := TxFields(NO_TRANSMIT, 0, false, 0), RxFields(0, false, 0);
      port, status := Port(false, false, false), Status(false, false, false, false, false, false, false);
      irq := Interrupt(false, false);
      log := [];
    }

    // -------------------------------------------------------------- alarms

    /** `alarm_set` of one of the two alarms: the table is never full. */
    method SetAlarm(a: Alarm, at: nat)
      requires Valid() && (a == alarmTx || a == alarmRx) && at <= AlarmSpec.CLOCK_MAX
      modifies context`numPending, context`table, context`pending, context`nextClk, context`nextIdx,
               context.pendingAlarms, context.members`pendingIdx
      ensures Valid() && context.pending == old(context.pending)[a := at]
    {
      context.HasRoom(a);
      context.Set(a, at);
    }

    /** `alarm_clk_tx = at`, `alarm_set`, `alarm_active_tx = 1` */
    method StartTx(at: nat)
      requires Valid() && at <= AlarmSpec.CLOCK_MAX
      modifies `tx, context`numPending, context`table, context`pending, context`nextClk, context`nextIdx,
               context.pendingAlarms, context.members`pendingIdx
      ensures Valid() && Others() == old(Others())
      ensures Abs() == old(Abs()).(tx := SetTxAlarm(old(Abs()).tx, at))
    {
      tx := tx.(clk := at);
      SetAlarm(alarmTx, tx.clk);
      tx := tx.(active := true);
    }

    /** `alarm_active_tx = 0`, `alarm_unset` */
    method StopTx()
      requires Valid()
      modifies `tx, context`numPending, context`table, context`pending, context`nextClk, context`nextIdx,
               context.pendingAlarms, context.members`pendingIdx
      ensures Valid() && Others() == old(Others())
      ensures Abs() == old(Abs()).(tx := ClearTxAlarm(old(Abs()).tx))
    {
      tx := tx.(active := false);
      context.Unset(alarmTx);
    }

    /** `alarm_clk_rx = at`, `alarm_set` */
    method StartRx(at: nat)
      requires Valid() && at <= AlarmSpec.CLOCK_MAX
      modifies `rx, context`numPending, context`table, context`pending, context`nextClk, context`nextIdx,
               context.pendingAlarms, context.members`pendingIdx
      ensures Valid() && Others() == old(Others())
      ensures Abs() == old(Abs()).(rx := SetRxAlarm(old(Abs()).rx, at))
    {
      rx := rx.(clk := at);
      SetAlarm(alarmRx, rx.clk);
    }

    method StopRx()
      requires Valid()
      modifies context`numPending, context`table, context`pending, context`nextClk, context`nextIdx,
               context.pendingAlarms, context.members`pendingIdx
      ensures Valid() && Others() == old(Others())
      ensures Abs() == old(Abs()).(rx := old(Abs()).rx.(pending := None))
    {
      context.Unset(alarmRx);
    }

    // -------------------------------------------------------------- internal steps

    /** `acia_set_int`, with the flag beside it */
    method SetInt(value: bool)
      modifies `irq
      ensures irq == SetIrq(cfg, old(irq), value)
    {
      if cfg.hasInt {
        irq := irq.(line := value);
      }
      irq := irq.(flag := value);
    }

    /** `set_acia_ticks` */
    method SetAciaTicks(now: nat)
      requires Valid() && InTime(now)
      modifies `frame, `rx, context`numPending, context`table, context`pending, context`nextClk, context`nextIdx,
               context.pendingAlarms, context.members`pendingIdx
      ensures Valid() && Others() == old(Others())
      ensures Abs() == SetTicks(cfg, old(Abs()), now)
    {
      frame := frame.(datamask := MaskOf(regs.ctrl));
      frame := frame.(ticks := cfg.rate(regs.cmd, regs.ctrl, regs.ectrl));
      if rx.active {
        StartRx(now + frame.ticks);
      }
    }

    /** `acia_set_handshake_lines` with RTS off */
    method LowerRts()
      requires Valid()
      modifies `port, `rx, `tx, context`numPending, context`table, context`pending, context`nextClk, context`nextIdx,
               context.pendingAlarms, context.members`pendingIdx
      ensures Valid() && Others() == old(Others())
      ensures Abs() == DropRts(old(Abs()))
    {
      port := port.(rts := false);
      if rx.active {
        rx := rx.(active := false);
        StopTx();
      }
    }

    /** RTS on, and the receiver with it */
    method EnableRx(now: nat)
      requires Valid() && InTime(now)
      modifies `port, `rx, `frame, context`numPending, context`table, context`pending, context`nextClk,
               context`nextIdx, context.pendingAlarms, context.members`pendingIdx
      ensures Valid() && Others() == old(Others())
      ensures var s := old(Abs()).(port := old(port).(rts := true));
              Abs() == if s.rx.active then s else SetTicks(cfg, s.(rx := s.rx.(active := true)), now)
    {
      port := port.(rts := true);
      if !rx.active {
        rx := rx.(active := true);
        SetAciaTicks(now);
      }
    }

    /** `acia_set_handshake_lines` with RTS on */
    method LiftRts(now: nat)
      requires Valid() && InTime(now)
      modifies `port, `rx, `tx, `frame, context`numPending, context`table, context`pending, context`nextClk,
               context`nextIdx, context.pendingAlarms, context.members`pendingIdx
      ensures Valid() && Others() == old(Others())
      ensures Abs() == RaiseRts(cfg, old(Abs()), now)
    {
      EnableRx(now);
      if !tx.active {
        StartTx(now + frame.ticks);
      }
    }

    /** `acia_set_handshake_lines` */
    method SetHandshakeLines(now: nat)
      requires Valid() && InTime(now)
      modifies `port, `rx, `tx, `frame, context`numPending, context`table, context`pending, context`nextClk,
               context`nextIdx, context.pendingAlarms, context.members`pendingIdx
      ensures Valid() && Others() == old(Others())
      ensures Abs() == SetHandshake(cfg, old(Abs()), now)
    {
      if Transmitter(regs.cmd) == NO_RTS {
        LowerRts();
      } else {
        LiftRts(now);
      }
      port := port.(dtr := Dtr(regs.cmd));
    }

    // -------------------------------------------------------------- register writes

    method StoreData(now: nat, value: byte)
      requires Valid() && InTime(now)
      modifies this, context`numPending, context`table, context`pending, context`nextClk, context`nextIdx,
               context.pendingAlarms, context.members`pendingIdx
      ensures Valid() && Others() == old(Others())
      ensures Abs() == WriteData(old(Abs()), now, value)
    {
      tx := tx.(data := value);
      log := log + [Write(value, Dtr(regs.cmd))];
      if Dtr(regs.cmd) {
        tx := tx.(state := DR_WRITTEN);
        if !tx.active {
          StartTx(now + 1);
        }
        status := status.(empty := false);
      }
    }

    /** What a programmed reset does to the chip's registers */
    method ClearCommand()
      modifies this
      ensures var s := old(Abs());
              Abs() == s.(
                port := Close(cfg, s.port), status := s.status.(overrun := false),
                regs := s.regs.(cmd := s.regs.cmd / 32 * 32), tx := s.tx.(state := NO_TRANSMIT),
                irq := SetIrq(cfg, s.irq, false), log := s.log + [ProgReset])
    {
      if port.open && !cfg.ip232 {
        port := port.(open := false);
      }
      status := status.(overrun := false);
      regs := regs.(cmd := regs.cmd / 32 * 32);
      tx := tx.(state := NO_TRANSMIT);
      SetInt(false);
      log := log + [ProgReset];
    }

    method StoreStatus(now: nat)
      requires Valid() && InTime(now)
      modifies this, context`numPending, context`table, context`pending, context`nextClk, context`nextIdx,
               context.pendingAlarms, context.members`pendingIdx
      ensures Valid() && Others() == old(Others())
      ensures Abs() == ProgrammedReset(cfg, old(Abs()), now)
    {
      ClearCommand();
      StopTx();
      SetHandshakeLines(now);
    }

    method StoreCtrl(now: nat, value: byte)
      requires Valid() && InTime(now)
      modifies this, context`numPending, context`table, context`pending, context`nextClk, context`nextIdx,
               context.pendingAlarms, context.members`pendingIdx
      ensures Valid() && Others() == old(Others())
      ensures Abs() == WriteCtrl(cfg, old(Abs()), now, value)
    {
      regs := regs.(ctrl := value);
      SetAciaTicks(now);
    }

    /** The device is opened, successfully or not, and the receiver is on. */
    method OpenPort(now: nat, opens: bool)
      requires Valid() && InTime(now)
      modifies this, context`numPending, context`table, context`pending, context`nextClk, context`nextIdx,
               context.pendingAlarms, context.members`pendingIdx
      ensures Valid() && Others() == old(Others())
      ensures Abs() == Open(cfg, old(Abs()), now, opens)
    {
      port := port.(open := opens);
      rx := rx.(active := true);
      SetAciaTicks(now);
      if Transmitter(regs.cmd) == TX_WITH_IRQ {
        AbortTx(now + frame.ticks);
      }
    }

    /** The transmit alarm is set, and a byte that waits is forgotten. */
    method AbortTx(at: nat)
      requires Valid() && at <= AlarmSpec.CLOCK_MAX
      modifies this, context`numPending, context`table, context`pending, context`nextClk, context`nextIdx,
               context.pendingAlarms, context.members`pendingIdx
      ensures Valid() && Others() == old(Others())
      ensures var s := old(Abs());
              Abs() == s.(tx := SetTxAlarm(s.tx, at).(state := NO_TRANSMIT), log := s.log + [TxAbort])
    {
      StartTx(at);
      tx := tx.(state := NO_TRANSMIT);
      log := log + [TxAbort];
    }

    /** `opens`: whether `rs232drv_open` succeeds, should it be called. */
    method StoreCmd(now: nat, value: byte, opens: bool)
      requires Valid() && InTime(now)
      modifies this, context`numPending, context`table, context`pending, context`nextClk, context`nextIdx,
               context.pendingAlarms, context.members`pendingIdx
      ensures Valid() && Others() == old(Others())
      ensures Abs() == WriteCmd(cfg, old(Abs()), now, value, opens)
    {
      regs := regs.(cmd := value);
      if Dtr(regs.cmd) && !port.open {
        OpenPort(now, opens);
      } else if port.open && !Dtr(regs.cmd) && !cfg.ip232 {
        StopTx();
        port := port.(open := false);
      }
      SetHandshakeLines(now);
    }

    method StoreEctrl(now: nat, value: byte)
      requires Valid() && InTime(now)
      modifies this, context`numPending, context`table, context`pending, context`nextClk, context`nextIdx,
               context.pendingAlarms, context.members`pendingIdx
      ensures Valid() && Others() == old(Others())
      ensures Abs() == WriteEctrl(cfg, old(Abs()), now, value)
    {
      if regs.ctrl % 16 == 0 {
        regs := regs.(ectrl := value);
        SetAciaTicks(now);
      }
    }

    method StoreRegister(now: nat, addr: nat, value: byte, opens: bool)
      requires Valid() && InTime(now)
      modifies this, context`numPending, context`table, context`pending, context`nextClk, context`nextIdx,
               context.pendingAlarms, context.members`pendingIdx
      ensures Valid() && Others() == old(Others())
      ensures Abs() == StorePlain(cfg, old(Abs()), now, addr, value, opens)
    {
      match RegisterOf(cfg, addr) {
        case 0 => StoreData(now, value);
        case 1 => StoreStatus(now);
        case 2 => StoreCmd(now, value, opens);
        case 3 => StoreCtrl(now, value);
        case 7 => StoreEctrl(now, value);
        case _ =>
      }
    }

    /** The read-modify-write prologue of `myacia_store` */
    method StoreBack(now: Tick, addr: nat, rmw: bool, opens: bool)
      requires Valid() && InTime(now)
      modifies this, context`numPending, context`table, context`pending, context`nextClk, context`nextIdx,
               context.pendingAlarms, context.members`pendingIdx
      ensures Valid() && Others() == old(Others())
      ensures Abs() == WriteBack(cfg, old(Abs()), now, addr, rmw, opens)
    {
      ghost var s, t := Abs(), WriteBack(cfg, Abs(), now, addr, rmw, opens);
      if rmw {
        assert t == StorePlain(cfg, s, now - 1, addr, regs.lastRead, opens);
        StoreRegister(now - 1, addr, regs.lastRead, opens);
        assert Abs() == t;
      }
    }

    /** `myacia_store`; `rmw` is the flag of a read-modify-write instruction in progress. */
    method StoreByte(now: Tick, addr: nat, value: byte, rmw: bool, opens: bool)
      requires Valid() && InTime(now)
      modifies this, context`numPending, context`table, context`pending, context`nextClk, context`nextIdx,
               context.pendingAlarms, context.members`pendingIdx
      ensures Valid() && Others() == old(Others())
      ensures Abs() == Store(cfg, old(Abs()), now, addr, value, rmw, opens)
    {
      StoreBack(now, addr, rmw, opens);
      StoreRegister(now, addr, value, opens);
    }

    // -------------------------------------------------------------- register reads

    /** `acia_get_status`; the bits of the status register are the fields of `status`. */
    method GetStatus(dcd: bool, dsr: bool) returns (st: Status)
      modifies `status
      ensures status == st == ModemStatus(cfg, old(Abs()), dcd, dsr)
    {
      st := status.(dcd := false, dsr := false);
      if !(port.open && dcd) {
        st := if cfg.dcdAsDsr then st.(dsr := true) else st.(dcd := true);
      }
      if !(port.open && dsr) {
        st := st.(dsr := true);
      }
      status := st;
    }

    /** `myacia_read` */
    method ReadByte(addr: nat, dcd: bool, dsr: bool) returns (value: byte)
      modifies this
      ensures Abs() == Read(cfg, old(Abs()), addr, dcd, dsr)
      ensures value == ReadValue(cfg, old(Abs()), addr, dcd, dsr)
    {
      match RegisterOf(cfg, addr) {
        case 0 =>
          log := log + [DataRead(rx.data, status.full)];
          status := status.(overrun := false, parity := false, framing := false, full := false);
          regs := regs.(lastRead := rx.data);
          value := rx.data;
        case 1 =>
          value := ReadStatusByte(dcd, dsr);
        case 2 =>
          regs := regs.(lastRead := regs.cmd);
          value := regs.cmd;
        case 3 =>
          regs := regs.(lastRead := regs.ctrl);
          value := regs.ctrl;
        case 7 =>
          value := (regs.ectrl + (if regs.ctrl % 16 == 0 then 4 else 0)) % 0x100;
        case _ =>
          value := 0xff;
      }
    }

    /** `myacia_read` of the status register */
    method ReadStatusByte(dcd: bool, dsr: bool) returns (value: byte)
      modifies this
      ensures Abs() == ReadStatus(cfg, old(Abs()), dcd, dsr)
      ensures value == StatusByte(ModemStatus(cfg, old(Abs()), dcd, dsr), old(irq.flag))
    {
      var st := GetStatus(dcd, dsr);
      value := StatusByte(st, irq.flag);
      SetInt(false);
      regs := regs.(lastRead := value);
      log := log + [StatusRead(value)];
    }

    // -------------------------------------------------------------- alarm callbacks, reset

    /** An interrupt cause */
    method RaiseInt()
      modifies `irq, `log
      ensures Abs() == RaiseIrq(cfg, old(Abs()))
    {
      SetInt(true);
      log := log + [Irq];
    }

    /** `int_acia_tx`; `out` is the byte handed to `rs232drv_putc`. */
    method IntTx(now: nat) returns (out: Option<byte>)
      requires Valid() && InTime(now)
      modifies this, context`numPending, context`table, context`pending, context`nextClk, context`nextIdx,
               context.pendingAlarms, context.members`pendingIdx
      ensures Valid() && Others() == old(Others())
      ensures Abs() == FireTx(cfg, old(Abs()), now)
      ensures out == if old(tx.state) == DR_WRITTEN && old(port.open)
                     then Some(Masked(old(tx.data), old(frame.datamask))) else None
    {
      out := PutByte(now);
      CountDown();
      if tx.state != NO_TRANSMIT || Transmitter(regs.cmd) == TX_WITH_IRQ {
        StartTx(now + frame.ticks);
      } else {
        StopTx();
      }
    }

    /** The interrupt of a transmit alarm, and the next transmit state */
    method CountDown()
      modifies `irq, `log, `tx
      ensures var s := old(Abs());
              var t := if Transmitter(regs.cmd) == TX_WITH_IRQ then RaiseIrq(cfg, s) else s;
              Abs() == t.(tx := if s.tx.state != NO_TRANSMIT then s.tx.(state := s.tx.state - 1) else s.tx)
    {
      if Transmitter(regs.cmd) == TX_WITH_IRQ {
        RaiseInt();
      }
      if tx.state != NO_TRANSMIT {
        tx := tx.(state := tx.state - 1);
      }
    }

    /** The waiting byte goes to the driver, if that is open. */
    method PutByte(now: nat) returns (out: Option<byte>)
      modifies `status, `log
      ensures Abs() == Transmit(old(Abs()), now)
      ensures out == if tx.state == DR_WRITTEN && port.open then Some(Masked(tx.data, frame.datamask)) else None
    {
      out := None;
      if tx.state == DR_WRITTEN && port.open {
        out := Some(Masked(tx.data, frame.datamask));
        log := log + [Sent(now, out.value, frame.datamask, frame.ticks)];
        status := status.(empty := true);
      } else if tx.state == DR_WRITTEN {
        log := log + [TxLost];
      }
    }

    /** A received byte: latched, or discarded on overrun. */
    method Latch(b: byte)
      modifies `rx, `status, `log
      ensures Abs() == Receive(old(Abs()), b)
    {
      if !status.full {
        rx := rx.(data := Masked(b, frame.datamask));
      } else {
        status := status.(overrun := true);
      }
      log := log + [Fetch(b, frame.datamask)];
      status := status.(full := true);
    }

    /** `int_acia_rx`; `input` is what `rs232drv_getc` returns, should it be called. */
    method IntRx(now: nat, input: Option<byte>)
      requires Valid() && InTime(now)
      modifies this, context`numPending, context`table, context`pending, context`nextClk, context`nextIdx,
               context.pendingAlarms, context.members`pendingIdx
      ensures Valid() && Others() == old(Others())
      ensures Abs() == FireRx(cfg, old(Abs()), now, input)
    {
      if port.open && input.Some? {
        Latch(input.value);
        if !RxIrqDisabled(regs.cmd) {
          RaiseInt();
        }
      }
      if rx.active {
        StartRx(now + frame.ticks);
      } else {
        StopRx();
      }
    }

    /** What a reset does to the chip's registers, once the ticks are set */
    method ClearStatus()
      modifies `status, `tx, `port
      ensures var s := old(Abs());
              Abs() == s.(
                port := s.port.(open := false),
                status := Status(false, false, false, false, true, true, s.status.dsr),
                tx := s.tx.(state := NO_TRANSMIT))
    {
      status := Status(false, false, false, false, true, true, status.dsr);
      tx := tx.(state := NO_TRANSMIT);
      port := port.(open := false);
    }

    /** What a reset makes of lines, registers and ticks */
    method ClearRegisters(now: nat)
      requires Valid() && InTime(now)
      modifies this, context`numPending, context`table, context`pending, context`nextClk, context`nextIdx,
               context.pendingAlarms, context.members`pendingIdx
      ensures Valid() && Others() == old(Others())
      ensures var s := old(Abs());
              Abs() == SetTicks(cfg, s.(port := s.port.(rts := false, dtr := false),
                                        regs := s.regs.(cmd := 0, ctrl := 0, ectrl := 0)), now)
    {
      port := port.(rts := false, dtr := false);
      regs := regs.(cmd := 0, ctrl := 0, ectrl := 0);
      SetAciaTicks(now);
    }

    /** `myacia_reset` */
    method ResetChip(now: nat)
      requires Valid() && InTime(now)
      modifies this, context`numPending, context`table, context`pending, context`nextClk, context`nextIdx,
               context.pendingAlarms, context.members`pendingIdx
      ensures Valid() && Others() == old(Others())
      ensures Abs() == Reset(cfg, old(Abs()), now)
    {
      ClearRegisters(now);
      ClearStatus();
      StopAlarms();
      SetInt(false);
      log := log + [HwReset];
    }

    method StopAlarms()
      requires Valid()
      modifies this, context`numPending, context`table, context`pending, context`nextClk, context`nextIdx,
               context.pendingAlarms, context.members`pendingIdx
      ensures Valid() && Others() == old(Others())
      ensures var s := old(Abs());
              Abs() == s.(tx := ClearTxAlarm(s.tx), rx := s.rx.(pending := None, active := false))
    {
      StopTx();
      StopRx();
      rx := rx.(active := false);
    }

    // -------------------------------------------------------------- runs

    /** One event of a run. */
    method Perform(e: AciaRuns.Stamped)
      requires Valid() && InTime(e.now)
      modifies this, context`numPending, context`table, context`pending, context`nextClk, context`nextIdx,
               context.pendingAlarms, context.members`pendingIdx
      ensures Valid() && Others() == old(Others())
      ensures Abs() == AciaRuns.Step(cfg, old(Abs()), e)
    {
      match e.ev {
        case StoreEv(addr, value, rmw, opens) => StoreByte(e.now, addr, value, rmw, opens);
        case ReadEv(addr, dcd, dsr) => var _ := ReadByte(addr, dcd, dsr);
        case TxAlarm => var _ := IntTx(e.now);
        case RxAlarm(input) => IntRx(e.now, input);
        case ResetEv => ResetChip(e.now);
      }
    }

    /** Any run takes the chip, the two alarms in the context included, where `AciaRuns.After` says, and
        touches nobody else's alarms. */
    method Play(run: seq<AciaRuns.Stamped>)
      requires Valid() && forall i :: 0 <= i < |run| ==> InTime(run[i].now)
      modifies this, context`numPending, context`table, context`pending, context`nextClk, context`nextIdx,
               context.pendingAlarms, context.members`pendingIdx
      ensures Valid() && Others() == old(Others())
      ensures Abs() == AciaRuns.After(cfg, old(Abs()), run)
    {
      ghost var s := Abs();
      var i := 0;
      while i < |run|
        invariant 0 <= i <= |run|
        invariant Valid() && Others() == old(Others())
        invariant Abs() == AciaRuns.After(cfg, s, run[..i])
      {
        AciaRuns.AfterSnoc(cfg, s, run[..i], run[i]);
        assert run[..i + 1] == run[..i] + [run[i]];
        Perform(run[i]);
        i := i + 1;
      }
      assert run[..i] == run;
    }

    /** The "active" flags and the clocks beside them mirror the context. */
    ghost predicate InStep()
      reads this, context`pending
    {
      && (tx.active <==> alarmTx in context.pending)
      && (alarmTx in context.pending ==> context.pending[alarmTx] == tx.clk)
      && (rx.active ==> alarmRx in context.pending)
      && (alarmRx in context.pending ==> context.pending[alarmRx] == rx.clk)
    }

    /** A chip just created is reset, and then any run leaves it in step with the context. */
    method PlayFromReset(run: seq<AciaRuns.Stamped>)
      requires Valid() && Abs() == PowerOn() && forall i :: 0 <= i < |run| ==> InTime(run[i].now)
      modifies this, context`numPending, context`table, context`pending, context`nextClk, context`nextIdx,
               context.pendingAlarms, context.members`pendingIdx
      ensures Valid() && Others() == old(Others()) && InStep()
      ensures Abs() == AciaRuns.After(cfg, AciaRuns.Start(cfg), run)
    {
      ResetChip(6);
      Play(run);
      AciaRuns.MirrorAlways(cfg, run);
    }
  }
  /** The alarms that `myacia_init` creates */
  method NewAlarms(context: AlarmContext) returns (a: Alarm, b: Alarm)
    requires context.Valid()
    modifies context`alarms, context`list, context`members, context.members`prev
    ensures context.Valid() && context.list == [b, a] + old(context.list)
    ensures context.members == old(context.members) + {a, b} && context.pending == old(context.pending)
    ensures fresh(a) && fresh(b) && a != b && a !in context.pending && b !in context.pending
  {
    a := context.New();
    b := context.New();
    context.NotPending(a);
    context.NotPending(b);
  }

  /** `myacia_init` on a context with room for two more alarms */
  method InitAcia(cfg: Config, context: AlarmContext) returns (chip: Acia)
    requires context.Valid() && |context.members| + 2 <= AlarmSpec.MAX_PENDING
    modifies context`alarms, context`list, context`members, context.members`prev
    ensures fresh(chip) && chip.cfg == cfg && chip.context == context && fresh(chip.alarmTx) && fresh(chip.alarmRx)
    ensures context.Valid() && context.list == [chip.alarmRx, chip.alarmTx] + old(context.list)
    ensures context.pending == old(context.pending)
    ensures chip.Valid() && chip.Abs() == PowerOn()
  {
    var a, b := NewAlarms(context);
    chip := new Acia(cfg, context, a, b);
  }
}
