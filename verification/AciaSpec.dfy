/**
 The 6551 ACIA (aciacore.c) as a state machine on values: what each register access, alarm
 callback and reset makes of the chip's state. Bytes are integers; a mask test on a register is
 written as the matching division.
 */
module AciaSpec {
  import opened Basics

  // ---------------------------------------------------------------- configuration

  datatype Mode = Normal | SwiftLink | Turbo232

  /** The ticks per character: some positive C `int`. */
  type Ticks = n: nat | 0 < n < 0x8000_0000 witness 1

  /** The ticks that a command, a control and an extended control register ask for. */
  type Rate = (byte, byte, byte) -> Ticks

  /** What does not change during a run: the line speeds, the card that is emulated, whether it has
      an interrupt line, whether the device is an IP232 one (never closed), and whether the machine
      shows DCD as DSR. */
  datatype Config = Config(rate: Rate, mode: Mode, hasInt: bool, ip232: bool, dcdAsDsr: bool)

  /** The CPU clock at a register access or alarm; it restarts at 6 with every machine reset. */
  type Tick = n: nat | n > 0 witness 1

  // ---------------------------------------------------------------- state

  /** The status register; its interrupt bit is `irq` of the state. */
  datatype Status = Status(
    parity: bool, framing: bool, overrun: bool, full: bool, empty: bool, dcd: bool, dsr: bool)

  /** What has happened so far, as far as the two ends of the line can tell. */
  datatype Entry =
    | Write(value: byte, accepted: bool)  // data register written; accepted while DTR is on
    | Sent(clk: nat, value: byte, mask: nat, ticks: nat)  // handed to the driver
    | TxLost  // transmit alarm with a byte waiting, but no open device
    | TxAbort  // the command register was written such that a waiting byte is forgotten
    | Fetch(value: byte, mask: nat)  // taken from the driver
    | DataRead(value: byte, unread: bool)  // data register read; unread when the full bit was set
    | StatusRead(value: byte)
    | Irq  // an interrupt cause
    | ProgReset
    | HwReset

  datatype Regs = Regs(cmd: byte, ctrl: byte, ectrl: byte, lastRead: byte)

  /** The transmitter: `state` is `in_tx`, `pending` what the alarm context has for its alarm. */
  datatype Tx = Tx(state: int, data: byte, active: bool, clk: nat, pending: Option<nat>)

  /** The receiver, likewise. */
  datatype Rx = Rx(data: byte, active: bool, clk: nat, pending: Option<nat>)

  /** Ticks per character, and the word length mask. */
  datatype Frame = Frame(ticks: Ticks, datamask: nat)

  /** The host's serial device and the handshake lines driven to it. */
  datatype Port = Port(open: bool, rts: bool, dtr: bool)

  /** The chip's interrupt flag, and the interrupt line of the CPU. */
  datatype Interrupt = Interrupt(flag: bool, line: bool)

  datatype State = State(
    regs: Regs, frame: Frame, tx: Tx, rx: Rx, port: Port, status: Status, irq: Interrupt, log: seq<Entry>)

  const NO_TRANSMIT := 0
  const TX_STARTED := 1
  const DR_WRITTEN := 2

  const NO_RTS := 0
  const TX_WITH_IRQ := 1

  /** `acia_preinit`, `myacia_init` */
  function PowerOn(): State {
    State(Regs(0, 0, 0, 0), Frame(21111, 0), Tx(NO_TRANSMIT, 0, false, 0, None), Rx(0, false, 0, None),
          Port(false, false, false), Status(false, false, false, false, false, false, false),
          Interrupt(false, false), [])
  }

  // ---------------------------------------------------------------- register fields

  function Dtr(cmd: byte): bool { cmd % 2 == 1 }

  function RxIrqDisabled(cmd: byte): bool { cmd / 2 % 2 == 1 }

  function Transmitter(cmd: byte): int { cmd / 4 % 4 }

  function WordLength(ctrl: byte): (bits: nat)
    ensures 5 <= bits <= 8
  {
    8 - ctrl / 32 % 4
  }

  /** `0xff >> (8 - bits)` */
  function MaskOf(ctrl: byte): nat {
    match WordLength(ctrl)
    case 8 => 0xff
    case 7 => 0x7f
    case 6 => 0x3f
    case _ => 0x1f
  }

  /** `value & mask`, for the masks that occur. */
  function Masked(value: byte, mask: nat): (r: byte)
    ensures r <= value && r <= mask
  {
    if mask >= 0xff then value
    else if mask >= 0x7f then value % 0x80
    else if mask >= 0x3f then value % 0x40
    else if mask >= 0x1f then value % 0x20
    else 0
  }

  function StatusByte(s: Status, irq: bool): byte {
    Num(s.parity) + 2 * Num(s.framing) + 4 * Num(s.overrun) + 8 * Num(s.full) + 16 * Num(s.empty)
    + 32 * Num(s.dcd) + 64 * Num(s.dsr) + 128 * Num(irq)
  }

  // ---------------------------------------------------------------- internal steps

  function SetTxAlarm(tx: Tx, at: nat): Tx {
    tx.(clk := at, pending := Some(at), active := true)
  }

  function ClearTxAlarm(tx: Tx): Tx {
    tx.(pending := None, active := false)
  }

  function SetRxAlarm(rx: Rx, at: nat): Rx {
    rx.(clk := at, pending := Some(at))
  }

  function FrameOf(cfg: Config, regs: Regs): Frame {
    Frame(cfg.rate(regs.cmd, regs.ctrl, regs.ectrl), MaskOf(regs.ctrl))
  }

  /** `set_acia_ticks` */
  function SetTicks(cfg: Config, s: State, now: nat): State {
    var f := FrameOf(cfg, s.regs);
    s.(frame := f, rx := if s.rx.active then SetRxAlarm(s.rx, now + f.ticks) else s.rx)
  }

  /** `acia_set_handshake_lines` with RTS off: the receiver finishes its character, the transmitter
      stops at once. */
  function DropRts(s: State): State {
    if s.rx.active then
      s.(port := s.port.(rts := false), rx := s.rx.(active := false), tx := ClearTxAlarm(s.tx))
    else s.(port := s.port.(rts := false))
  }

  /** `acia_set_handshake_lines` with RTS on */
  function RaiseRts(cfg: Config, s: State, now: nat): State {
    var s1 := s.(port := s.port.(rts := true));
    var s2 := if s.rx.active then s1 else SetTicks(cfg, s1.(rx := s.rx.(active := true)), now);
    s2.(tx := if s2.tx.active then s2.tx else SetTxAlarm(s2.tx, now + s2.frame.ticks))
  }

  /** `acia_set_handshake_lines` */
  function SetHandshake(cfg: Config, s: State, now: nat): State {
    var s1 := if Transmitter(s.regs.cmd) == NO_RTS then DropRts(s) else RaiseRts(cfg, s, now);
    s1.(port := s1.port.(dtr := Dtr(s.regs.cmd)))
  }

  /** `acia_set_int` and the assignment to `acia.irq` beside it */
  function SetIrq(cfg: Config, i: Interrupt, value: bool): Interrupt {
    Interrupt(value, if cfg.hasInt then value else i.line)
  }

  function Close(cfg: Config, p: Port): Port {
    if cfg.ip232 then p else p.(open := false)
  }

  // ---------------------------------------------------------------- register writes

  function WriteData(s: State, now: nat, value: byte): State {
    var s1 := s.(tx := s.tx.(data := value), log := s.log + [Write(value, Dtr(s.regs.cmd))]);
    if Dtr(s.regs.cmd) then
      var tx := s1.tx.(state := DR_WRITTEN);
      s1.(tx := if tx.active then tx else SetTxAlarm(tx, now + 1), status := s.status.(empty := false))
    else s1
  }

  /** A write to the status register is a programmed reset. */
  function ProgrammedReset(cfg: Config, s: State, now: nat): State {
    var s1 := s.(
      port := Close(cfg, s.port),
      status := s.status.(overrun := false),
      regs := s.regs.(cmd := s.regs.cmd / 32 * 32),
      tx := ClearTxAlarm(s.tx).(state := NO_TRANSMIT),
      irq := SetIrq(cfg, s.irq, false),
      log := s.log + [ProgReset]);
    SetHandshake(cfg, s1, now)
  }

  function WriteCtrl(cfg: Config, s: State, now: nat, value: byte): State {
    SetTicks(cfg, s.(regs := s.regs.(ctrl := value)), now)
  }

  /** The command register turns DTR on while the device is closed. */
  function Open(cfg: Config, s: State, now: nat, opens: bool): State {
    var s1 := SetTicks(cfg, s.(port := s.port.(open := opens), rx := s.rx.(active := true)), now);
    if Transmitter(s.regs.cmd) == TX_WITH_IRQ then
      s1.(tx := SetTxAlarm(s1.tx, now + s1.frame.ticks).(state := NO_TRANSMIT), log := s1.log + [TxAbort])
    else s1
  }

  /** `opens`: whether `rs232drv_open` succeeds, should it be called. */
  function WriteCmd(cfg: Config, s: State, now: nat, value: byte, opens: bool): State {
    var s1 := s.(regs := s.regs.(cmd := value));
    var s2 :=
      if Dtr(value) && !s.port.open then Open(cfg, s1, now, opens)
      else if s.port.open && !Dtr(value) && !cfg.ip232 then
        s1.(port := s.port.(open := false), tx := ClearTxAlarm(s.tx))
      else s1;
    SetHandshake(cfg, s2, now)
  }

  function WriteEctrl(cfg: Config, s: State, now: nat, value: byte): State {
    if s.regs.ctrl % 16 == 0 then SetTicks(cfg, s.(regs := s.regs.(ectrl := value)), now) else s
  }

  function RegisterOf(cfg: Config, addr: nat): nat {
    if cfg.mode == Turbo232 then addr % 8 else addr % 4
  }

  /** `myacia_store` without the read-modify-write prologue */
  function StorePlain(cfg: Config, s: State, now: nat, addr: nat, value: byte, opens: bool): State {
    match RegisterOf(cfg, addr)
    case 0 => WriteData(s, now, value)
    case 1 => ProgrammedReset(cfg, s, now)
    case 2 => WriteCmd(cfg, s, now, value, opens)
    case 3 => WriteCtrl(cfg, s, now, value)
    case 7 => WriteEctrl(cfg, s, now, value)
    case _ => s
  }

  function WriteBack(cfg: Config, s: State, now: Tick, addr: nat, rmw: bool, opens: bool): State {
    if rmw then StorePlain(cfg, s, now - 1, addr, s.regs.lastRead, opens) else s
  }

  /** `myacia_store`: a read-modify-write instruction first writes back, one cycle earlier, what it
      read. */
  function Store(cfg: Config, s: State, now: Tick, addr: nat, value: byte, rmw: bool, opens: bool): State {
    StorePlain(cfg, WriteBack(cfg, s, now, addr, rmw, opens), now, addr, value, opens)
  }

  // ---------------------------------------------------------------- register reads

  /** `acia_get_status`: DSR and DCD follow the modem lines of an open device. */
  function ModemStatus(cfg: Config, s: State, dcd: bool, dsr: bool): Status {
    var dcdOff, dsrOff := !(s.port.open && dcd), !(s.port.open && dsr);
    s.status.(dcd := dcdOff && !cfg.dcdAsDsr, dsr := (dcdOff && cfg.dcdAsDsr) || dsrOff)
  }

  function ReadData(s: State): State {
    s.(status := s.status.(overrun := false, parity := false, framing := false, full := false),
       regs := s.regs.(lastRead := s.rx.data),
       log := s.log + [DataRead(s.rx.data, s.status.full)])
  }

  function ReadStatus(cfg: Config, s: State, dcd: bool, dsr: bool): State {
    var status := ModemStatus(cfg, s, dcd, dsr);
    var c := StatusByte(status, s.irq.flag);
    s.(status := status, irq := SetIrq(cfg, s.irq, false), regs := s.regs.(lastRead := c),
       log := s.log + [StatusRead(c)])
  }

  /** `myacia_read`, the state after it */
  function Read(cfg: Config, s: State, addr: nat, dcd: bool, dsr: bool): State {
    match RegisterOf(cfg, addr)
    case 0 => ReadData(s)
    case 1 => ReadStatus(cfg, s, dcd, dsr)
    case 2 => s.(regs := s.regs.(lastRead := s.regs.cmd))
    case 3 => s.(regs := s.regs.(lastRead := s.regs.ctrl))
    case _ => s
  }

  /** `myacia_read`, the value it returns */
  function ReadValue(cfg: Config, s: State, addr: nat, dcd: bool, dsr: bool): byte {
    match RegisterOf(cfg, addr)
    case 0 => s.rx.data
    case 1 => StatusByte(ModemStatus(cfg, s, dcd, dsr), s.irq.flag)
    case 2 => s.regs.cmd
    case 3 => s.regs.ctrl
    case 7 => (s.regs.ectrl + (if s.regs.ctrl % 16 == 0 then 4 else 0)) % 0x100
    case _ => 0xff
  }

  // ---------------------------------------------------------------- alarms and reset

  /** The waiting byte, if there is one, goes to the driver, if that is open. */
  function Transmit(s: State, now: nat): State {
    if s.tx.state != DR_WRITTEN then s
    else if s.port.open then
      s.(status := s.status.(empty := true),
         log := s.log + [Sent(now, Masked(s.tx.data, s.frame.datamask), s.frame.datamask, s.frame.ticks)])
    else s.(log := s.log + [TxLost])
  }

  function RaiseIrq(cfg: Config, s: State): State {
    s.(irq := SetIrq(cfg, s.irq, true), log := s.log + [Irq])
  }

  /** `int_acia_tx` */
  function FireTx(cfg: Config, s: State, now: nat): State {
    var withIrq := Transmitter(s.regs.cmd) == TX_WITH_IRQ;
    var s1 := Transmit(s, now);
    var s2 := if withIrq then RaiseIrq(cfg, s1) else s1;
    var tx := if s.tx.state != NO_TRANSMIT then s.tx.(state := s.tx.state - 1) else s.tx;
    s2.(tx := if tx.state != NO_TRANSMIT || withIrq then SetTxAlarm(tx, now + s.frame.ticks) else ClearTxAlarm(tx))
  }

  /** The receive buffer takes a byte, or discards it when it is full. */
  function Receive(s: State, b: byte): State {
    if s.status.full then
      s.(status := s.status.(overrun := true), log := s.log + [Fetch(b, s.frame.datamask)])
    else
      s.(status := s.status.(full := true), rx := s.rx.(data := Masked(b, s.frame.datamask)),
         log := s.log + [Fetch(b, s.frame.datamask)])
  }

  /** `int_acia_rx`; `input` is what the driver has for us, should it be asked. */
  function FireRx(cfg: Config, s: State, now: nat, input: Option<byte>): State {
    var s1 := if s.port.open && input.Some? then Receive(s, input.value) else s;
    var s2 := if s.port.open && input.Some? && !RxIrqDisabled(s.regs.cmd) then RaiseIrq(cfg, s1) else s1;
    s2.(rx := if s2.rx.active then SetRxAlarm(s2.rx, now + s2.frame.ticks) else s2.rx.(pending := None))
  }

  /** `myacia_reset` */
  function Reset(cfg: Config, s: State, now: nat): State {
    var s1 := SetTicks(cfg, s.(regs := s.regs.(cmd := 0, ctrl := 0, ectrl := 0)), now);
    s1.(port := Port(false, false, false),
        status := Status(false, false, false, false, true, true, s.status.dsr),
        tx := ClearTxAlarm(s.tx).(state := NO_TRANSMIT),
        rx := s1.rx.(pending := None, active := false),
        irq := SetIrq(cfg, s.irq, false),
        log := s.log + [HwReset])
  }
}
