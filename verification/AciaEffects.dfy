/**
 What every access, alarm and reset does to the ACIA, in terms of the bits of the registers, the device and the
 clock: the state machine of `AciaSpec` once more, from the side of the program and the line.
 */
module AciaEffects {
  import opened Basics
  import opened AciaRate
  import opened AciaRuns
  import opened AciaSpec

  // ---------------------------------------------------------------- register bits

  /** The command register: bit 0 turns DTR on, bit 1 receive interrupts off; bits 3 and 2 turn RTS off when both
      are zero, and transmit interrupts on when they are 01. */
  lemma CommandBits(cmd: byte)
    ensures Dtr(cmd) <==> BitOf(cmd, 0)
    ensures RxIrqDisabled(cmd) <==> BitOf(cmd, 1)
    ensures Transmitter(cmd) == NO_RTS <==> !BitOf(cmd, 3) && !BitOf(cmd, 2)
    ensures Transmitter(cmd) == TX_WITH_IRQ <==> !BitOf(cmd, 3) && BitOf(cmd, 2)
  {
    LowBits(cmd);
    assert cmd / 8 == cmd / 4 / 2;
    TwoBits(cmd / 4);
  }

  /** Bits 6 and 5 of the control register are the word length, counted down from eight. */
  function DataBits(ctrl: byte): nat {
    8 - 2 * Num(BitOf(ctrl, 6)) - Num(BitOf(ctrl, 5))
  }

  lemma WordLengthBits(ctrl: byte)
    ensures WordLength(ctrl) == DataBits(ctrl)
  {
    HighBits(ctrl);
    assert ctrl / 0x40 == ctrl / 0x20 / 2;
    TwoBits(ctrl / 0x20);
  }

  /** As many of its low bits survive of a byte as the word length says. */
  lemma MaskMeans(ctrl: byte, v: byte, k: nat)
    requires k < 8
    ensures BitOf(Masked(v, MaskOf(ctrl)), k) <==> k < DataBits(ctrl) && BitOf(v, k)
    ensures MaskOf(ctrl) == Power2(DataBits(ctrl)) - 1
  {
    WordLengthBits(ctrl);
    assert Power2(8) == 0x100 && Power2(7) == 0x80 && Power2(6) == 0x40 && Power2(5) == 0x20;
    BitsBelow(v, 7, 0x80, k);
    BitsBelow(v, 6, 0x40, k);
    BitsBelow(v, 5, 0x20, k);
  }

  function Power2(n: nat): (p: nat)
    ensures p > 0
  {
    if n == 0 then 1 else 2 * Power2(n - 1)
  }

  /** Taking the remainder by a power of two keeps the bits below it. */
  lemma {:induction false} BitsBelow(v: nat, n: nat, p: nat, k: nat)
    requires p == Power2(n)
    ensures BitOf(v % p, k) <==> k < n && BitOf(v, k)
  {
    if n == 0 {
      assert v % 1 == 0;
      NoBits(k);
    } else {
      var h := Power2(n - 1);
      BitsBelow(v / 2, n - 1, h, if k == 0 then 0 else k - 1);
      HalfOfRemainder(v, h);
    }
  }

  lemma {:induction false} NoBits(k: nat)
    ensures !BitOf(0, k)
  {
    if k > 0 {
      NoBits(k - 1);
    }
  }

  lemma HalfOfRemainder(v: nat, h: nat)
    requires h > 0
    ensures v % (2 * h) == 2 * (v / 2 % h) + v % 2
    ensures v % (2 * h) / 2 == v / 2 % h && v % (2 * h) % 2 == v % 2
  {
    var q, r := v / 2 / h, v / 2 % h;
    assert v / 2 == q * h + r;
    assert v == q * (2 * h) + (2 * r + v % 2) by {
      assert v == 2 * (v / 2) + v % 2;
      assert 2 * (q * h) == q * (2 * h);
    }
    RemainderOf(v, 2 * h, q, 2 * r + v % 2);
  }

  /** Which register an address selects: its two low bits, with a Turbo232 its three low bits. */
  lemma RegisterBits(cfg: Config, addr: nat)
    ensures RegisterOf(cfg, addr) ==
            Num(BitOf(addr, 0)) + 2 * Num(BitOf(addr, 1))
            + (if cfg.mode == Turbo232 then 4 * Num(BitOf(addr, 2)) else 0)
  {
    LowBits(addr);
    TwoBits(addr);
    ThreeBits(addr);
  }

  lemma ThreeBits(a: nat)
    ensures a % 8 == 4 * (a / 4 % 2) + a % 4
  {
  }

  /** The status register: parity, framing and overrun error, receive buffer full, transmit buffer empty, DCD, DSR and
      the interrupt, from bit 0 up. */
  lemma StatusBits(s: Status, irq: bool)
    ensures var c := StatusByte(s, irq);
            && BitOf(c, 0) == s.parity && BitOf(c, 1) == s.framing && BitOf(c, 2) == s.overrun && BitOf(c, 3) == s.full
            && BitOf(c, 4) == s.empty && BitOf(c, 5) == s.dcd && BitOf(c, 6) == s.dsr && BitOf(c, 7) == irq
  {
    var high := Num(s.empty) + 2 * (Num(s.dcd) + 2 * (Num(s.dsr) + 2 * Num(irq)));
    var low := Num(s.parity) + 2 * (Num(s.framing) + 2 * (Num(s.overrun) + 2 * Num(s.full)));
    StatusHalves(s, irq, low, high);
    BitsOfHalves(StatusByte(s, irq), high, s, irq);
  }

  lemma BitsOfHalves(c: byte, high: nat, s: Status, irq: bool)
    requires high == Num(s.empty) + 2 * (Num(s.dcd) + 2 * (Num(s.dsr) + 2 * Num(irq)))
    requires c / 0x10 == high
    requires c == Num(s.parity) + 2 * (Num(s.framing) + 2 * (Num(s.overrun) + 2 * (Num(s.full) + 2 * high)))
    ensures BitOf(c, 0) == s.parity && BitOf(c, 1) == s.framing && BitOf(c, 2) == s.overrun && BitOf(c, 3) == s.full
    ensures BitOf(c, 4) == s.empty && BitOf(c, 5) == s.dcd && BitOf(c, 6) == s.dsr && BitOf(c, 7) == irq
  {
    FourBits(c, s.parity, s.framing, s.overrun, s.full, high);
    FourBits(high, s.empty, s.dcd, s.dsr, irq, 0);
    UpperBits(c, high);
  }

  lemma StatusHalves(s: Status, irq: bool, low: nat, high: nat)
    requires high == Num(s.empty) + 2 * (Num(s.dcd) + 2 * (Num(s.dsr) + 2 * Num(irq)))
    requires low == Num(s.parity) + 2 * (Num(s.framing) + 2 * (Num(s.overrun) + 2 * Num(s.full)))
    ensures StatusByte(s, irq) == low + 0x10 * high && StatusByte(s, irq) / 0x10 == high
  {
    RemainderOf(low + 0x10 * high, 0x10, high, low);
  }

  lemma FourBits(c: nat, b0: bool, b1: bool, b2: bool, b3: bool, rest: nat)
    requires c == Num(b0) + 2 * (Num(b1) + 2 * (Num(b2) + 2 * (Num(b3) + 2 * rest)))
    ensures BitOf(c, 0) == b0 && BitOf(c, 1) == b1 && BitOf(c, 2) == b2 && BitOf(c, 3) == b3
  {
    var c3 := Num(b3) + 2 * rest;
    var c2 := Num(b2) + 2 * c3;
    var c1 := Num(b1) + 2 * c2;
    assert c / 2 == c1 && c1 / 2 == c2 && c2 / 2 == c3;
  }

  lemma UpperBits(c: nat, high: nat)
    requires c / 0x10 == high
    ensures BitOf(c, 4) == BitOf(high, 0) && BitOf(c, 5) == BitOf(high, 1)
    ensures BitOf(c, 6) == BitOf(high, 2) && BitOf(c, 7) == BitOf(high, 3)
  {
    LowBits(high);
    HighBits(c);
    assert c / 0x20 == high / 2 && c / 0x40 == high / 4 && c / 0x80 == high / 8;
  }

  // ---------------------------------------------------------------- alarms

  /** The interrupt flag and the line behind it, set or cleared. */
  predicate IrqBecomes(cfg: Config, s: State, t: State, on: bool) {
    t.irq.flag == on && t.irq.line == if cfg.hasInt then on else s.irq.line
  }

  /** The receive alarm takes a byte if the device is open and has one: into the buffer if that is empty, else it
      is discarded and the overrun bit set; in either case the buffer is full then, and an interrupt is raised if
      bit 1 of the command register is off. The alarm is set again while the receiver is on. */
  lemma ReceiveAlarm(cfg: Config, s: State, now: Tick, input: Option<byte>)
    ensures var t := Step(cfg, s, At(now, RxAlarm(input)));
            var taken := s.port.open && input.Some?;
            var raised := taken && !BitOf(s.regs.cmd, 1);
            && t.log == s.log + (if taken then [Fetch(input.value, s.frame.datamask)] else [])
                        + (if raised then [Irq] else [])
            && t.rx.data == (if taken && !s.status.full then Masked(input.value, s.frame.datamask) else s.rx.data)
            && t.status == s.status.(full := s.status.full || taken,
                                     overrun := s.status.overrun || (s.status.full && taken))
            && (if raised then IrqBecomes(cfg, s, t, true) else t.irq == s.irq)
            && t.rx.active == s.rx.active && t.rx.pending == (if s.rx.active then Some(now + s.frame.ticks) else None)
            && (s.rx.active ==> t.rx.clk == now + s.frame.ticks)
            && t.regs == s.regs && t.frame == s.frame && t.tx == s.tx && t.port == s.port
  {
    CommandBits(s.regs.cmd);
  }

  /** The transmit alarm hands a waiting byte to the driver if the device is open, and else loses it. It raises an
      interrupt exactly when bits 3 and 2 of the command register are 01. It is set again while there is something
      under way or such interrupts are wanted. */
  lemma TransmitAlarm(cfg: Config, s: State, now: Tick)
    requires 0 <= s.tx.state <= 2
    ensures var t := Step(cfg, s, At(now, TxAlarm));
            var sent := s.tx.state == 2 && s.port.open;
            var raised := !BitOf(s.regs.cmd, 3) && BitOf(s.regs.cmd, 2);
            var again := s.tx.state == 2 || raised;
            && t.log == s.log
                 + (if sent then [Sent(now, Masked(s.tx.data, s.frame.datamask), s.frame.datamask, s.frame.ticks)]
                    else if s.tx.state == 2 then [TxLost] else [])
                 + (if raised then [Irq] else [])
            && t.tx.state == (if s.tx.state == 2 then 1 else 0) && t.tx.data == s.tx.data
            && t.status == s.status.(empty := s.status.empty || sent)
            && (if raised then IrqBecomes(cfg, s, t, true) else t.irq == s.irq)
            && t.tx.active == again && t.tx.pending == (if again then Some(now + s.frame.ticks) else None)
            && (again ==> t.tx.clk == now + s.frame.ticks)
            && t.regs == s.regs && t.frame == s.frame && t.rx == s.rx && t.port == s.port
  {
    CommandBits(s.regs.cmd);
  }

  // ---------------------------------------------------------------- writes

  function Plainly(addr: nat, value: byte, opens: bool): Event {
    StoreEv(addr, value, false, opens)
  }

  /** A byte written to the data register is accepted if bit 0 of the command register is on: it waits to be sent,
      the transmit-empty bit goes off, and the transmit alarm is set for the next cycle unless it is set already. */
  lemma DataWritten(cfg: Config, s: State, now: Tick, addr: nat, value: byte, opens: bool)
    requires RegisterOf(cfg, addr) == 0
    ensures var t := Step(cfg, s, At(now, Plainly(addr, value, opens)));
            var accepted := BitOf(s.regs.cmd, 0);
            var starts := accepted && !s.tx.active;
            && t.log == s.log + [AciaSpec.Write(value, accepted)]
            && t.tx.data == value && t.tx.state == (if accepted then 2 else s.tx.state)
            && t.status == s.status.(empty := s.status.empty && !accepted)
            && t.tx.active == (s.tx.active || starts)
            && t.tx.pending == (if starts then Some(now + 1) else s.tx.pending)
            && t.tx.clk == (if starts then now + 1 else s.tx.clk)
            && t.regs == s.regs && t.frame == s.frame && t.rx == s.rx && t.port == s.port && t.irq == s.irq
  {
    CommandBits(s.regs.cmd);
  }

  /** The speed and the word length that the registers ask for. */
  predicate FramedBy(cfg: Config, t: State, cmd: byte, ctrl: byte, ectrl: byte) {
    t.frame == Frame(cfg.rate(cmd, ctrl, ectrl), MaskOf(ctrl))
  }

  predicate UpperKept(cmd: byte, c: byte) {
    && !BitOf(c, 0) && !BitOf(c, 1) && !BitOf(c, 2) && !BitOf(c, 3) && !BitOf(c, 4)
    && BitOf(c, 5) == BitOf(cmd, 5) && BitOf(c, 6) == BitOf(cmd, 6) && BitOf(c, 7) == BitOf(cmd, 7)
  }

  /** A write to the status register closes the device, drops both lines, clears overrun bit and interrupt, keeps only
      the three upper bits of the command register, and forgets the waiting byte with its alarm. */
  lemma StatusWritten(cfg: Config, s: State, now: Tick, addr: nat, value: byte, opens: bool)
    requires RegisterOf(cfg, addr) == 1
    ensures var t := Step(cfg, s, At(now, Plainly(addr, value, opens)));
            && t.log == s.log + [ProgReset]
            && UpperKept(s.regs.cmd, t.regs.cmd)
            && t.regs == s.regs.(cmd := t.regs.cmd)
            && t.port == Port(s.port.open && cfg.ip232, false, false)
            && t.status == s.status.(overrun := false)
            && IrqBecomes(cfg, s, t, false)
            && t.tx == s.tx.(state := 0, active := false, pending := None)
            && t.rx == s.rx.(active := false) && t.frame == s.frame
  {
    UpperThree(s.regs.cmd);
    ClearedCommand(s.regs.cmd);
  }

  lemma UpperThree(cmd: byte)
    ensures UpperKept(cmd, cmd / 32 * 32)
  {
    var q := cmd / 32;
    LowBits(q);
    HighBits(cmd);
    assert cmd / 0x40 == q / 2 && cmd / 0x80 == q / 4;
    FiveZeros(q);
  }

  lemma FiveZeros(q: nat)
    ensures var c := q * 32;
            && !BitOf(c, 0) && !BitOf(c, 1) && !BitOf(c, 2) && !BitOf(c, 3) && !BitOf(c, 4)
            && BitOf(c, 5) == BitOf(q, 0) && BitOf(c, 6) == BitOf(q, 1) && BitOf(c, 7) == BitOf(q, 2)
  {
    Doubled(q * 16);
    Doubled(q * 8);
    Doubled(q * 4);
    Doubled(q * 2);
    Doubled(q);
  }

  lemma Doubled(x: nat)
    ensures !BitOf(2 * x, 0) && forall k: nat :: BitOf(2 * x, k + 1) == BitOf(x, k)
  {
    assert 2 * x % 2 == 0 && 2 * x / 2 == x;
  }

  /** A write to the control register sets speed and word length, and puts off the next receive alarm. */
  lemma ControlWritten(cfg: Config, s: State, now: Tick, addr: nat, value: byte, opens: bool)
    requires RegisterOf(cfg, addr) == 3
    ensures var t := Step(cfg, s, At(now, Plainly(addr, value, opens)));
            && t.regs == s.regs.(ctrl := value) && FramedBy(cfg, t, s.regs.cmd, value, s.regs.ectrl)
            && PutOff(s, t, now) && OnlyReframed(s, t)
  {
  }

  /** A write to the extended control register does so too, but only while the low four bits of the control register
      are zero, else nothing. */
  lemma ExtendedControlWritten(cfg: Config, s: State, now: Tick, addr: nat, value: byte, opens: bool)
    requires RegisterOf(cfg, addr) == 7
    ensures var t := Step(cfg, s, At(now, Plainly(addr, value, opens)));
            if ExternalClock(s.regs.ctrl) then
              && t.regs == s.regs.(ectrl := value) && FramedBy(cfg, t, s.regs.cmd, s.regs.ctrl, value)
              && PutOff(s, t, now) && OnlyReframed(s, t)
            else t == s
  {
    SpeedBits(s.regs.ctrl);
  }

  /** The three other addresses of a Turbo232 are not registers. */
  lemma NothingWritten(cfg: Config, s: State, now: Tick, addr: nat, value: byte, opens: bool)
    requires 4 <= RegisterOf(cfg, addr) <= 6
    ensures Step(cfg, s, At(now, Plainly(addr, value, opens))) == s
  {
  }

  /** The low four bits of the control register, which select the speed, are zero. */
  predicate ExternalClock(ctrl: byte) {
    !BitOf(ctrl, 3) && !BitOf(ctrl, 2) && !BitOf(ctrl, 1) && !BitOf(ctrl, 0)
  }

  lemma SpeedBits(ctrl: byte)
    ensures ctrl % 16 == 0 <==> ExternalClock(ctrl)
  {
    LowBits(ctrl);
    LowNibble(ctrl);
  }

  lemma LowNibble(v: nat)
    ensures v % 16 == 8 * (v / 8 % 2) + 4 * (v / 4 % 2) + 2 * (v / 2 % 2) + v % 2
  {
    ThreeBits(v);
    TwoBits(v);
    FourthBit(v);
  }

  lemma FourthBit(v: nat)
    ensures v % 16 == 8 * (v / 8 % 2) + v % 8
  {
    var q, r := v / 16, v % 16;
    assert v == 16 * q + r;
    if r < 8 {
      RemainderOf(v, 8, 2 * q, r);
      RemainderOf(2 * q, 2, q, 0);
    } else {
      RemainderOf(v, 8, 2 * q + 1, r - 8);
      RemainderOf(2 * q + 1, 2, q, 1);
    }
  }

  /** The receive alarm of a receiver that is on is now a whole character away. */
  predicate PutOff(s: State, t: State, now: nat) {
    && t.rx.pending == (if s.rx.active then Some(now + t.frame.ticks) else s.rx.pending)
    && t.rx.clk == (if s.rx.active then now + t.frame.ticks else s.rx.clk)
  }

  predicate OnlyReframed(s: State, t: State) {
    && t.rx.data == s.rx.data && t.rx.active == s.rx.active && t.tx == s.tx && t.port == s.port && t.status == s.status
    && t.irq == s.irq && t.log == s.log
  }

  /** What a write to the command register does to the device. */
  datatype Turn = Opening | Closing | Staying

  /** Bit 0 opens a device that is closed and closes one that is open, unless that is an IP232 one. */
  function TurnOf(cfg: Config, s: State, value: byte): Turn {
    if BitOf(value, 0) && !s.port.open then Opening
    else if !BitOf(value, 0) && s.port.open && !cfg.ip232 then Closing
    else Staying
  }

  /** The receive alarm is set anew when the receiver comes on or the device is opened, and stays as it is
      otherwise, also when RTS goes off. */
  predicate ReceiverAfter(s: State, t: State, now: nat, turn: Turn, rts: bool) {
    var sets := turn == Opening || (rts && !s.rx.active);
    && t.rx.data == s.rx.data && t.rx.active == rts
    && t.rx.pending == (if sets then Some(now + t.frame.ticks) else s.rx.pending)
    && t.rx.clk == (if sets then now + t.frame.ticks else s.rx.clk)
  }

  /** With RTS on, the transmit alarm is set afterwards: a character time ahead, unless it was set before and the
      device is neither closed nor opened with transmit interrupts, which forgets a waiting byte. With RTS off it is
      gone if the receiver was on or the device is opened or closed. */
  predicate TransmitterAfter(s: State, t: State, now: nat, turn: Turn, rts: bool, txIrq: bool) {
    var aborts := turn == Opening && txIrq;
    var stops := turn == Closing || (!rts && (turn == Opening || s.rx.active));
    var sets := aborts || (rts && (turn == Closing || !s.tx.active));
    && t.log == s.log + (if aborts then [TxAbort] else [])
    && t.tx.data == s.tx.data && t.tx.state == (if aborts then 0 else s.tx.state)
    && t.tx.active == (sets || (s.tx.active && !stops))
    && t.tx.pending == (if sets then Some(now + t.frame.ticks) else if stops then None else s.tx.pending)
    && t.tx.clk == (if sets then now + t.frame.ticks else s.tx.clk)
  }

  lemma Commanded(cfg: Config, s: State, now: nat, value: byte, opens: bool, turn: Turn)
    requires turn == if Dtr(value) && !s.port.open then Opening
                     else if !Dtr(value) && s.port.open && !cfg.ip232 then Closing else Staying
    ensures var t := WriteCmd(cfg, s, now, value, opens);
            && ReceiverAfter(s, t, now, turn, Transmitter(value) != NO_RTS)
            && TransmitterAfter(s, t, now, turn, Transmitter(value) != NO_RTS, Transmitter(value) == TX_WITH_IRQ)
  {
  }

  /** A write to the command register: device and lines. Bit 0 is DTR, bits 3 and 2 together are RTS. */
  lemma CommandWritten(cfg: Config, s: State, now: Tick, addr: nat, value: byte, opens: bool)
    requires RegisterOf(cfg, addr) == 2
    ensures var t := Step(cfg, s, At(now, Plainly(addr, value, opens)));
            var turn := TurnOf(cfg, s, value);
            var rts := BitOf(value, 3) || BitOf(value, 2);
            && t.regs == s.regs.(cmd := value)
            && t.port == Port(if turn == Opening then opens else s.port.open && turn != Closing, rts, BitOf(value, 0))
            && t.status == s.status && t.irq == s.irq
            && (if turn == Opening || (rts && !s.rx.active) then FramedBy(cfg, t, value, s.regs.ctrl, s.regs.ectrl)
                else t.frame == s.frame)
  {
    CommandBits(value);
  }

  /** A write to the command register: the receiver is on afterwards exactly if RTS is. */
  lemma CommandAndReceiver(cfg: Config, s: State, now: Tick, addr: nat, value: byte, opens: bool)
    requires RegisterOf(cfg, addr) == 2
    ensures var t := Step(cfg, s, At(now, Plainly(addr, value, opens)));
            ReceiverAfter(s, t, now, TurnOf(cfg, s, value), BitOf(value, 3) || BitOf(value, 2))
  {
    CommandBits(value);
    Commanded(cfg, s, now, value, opens, TurnOf(cfg, s, value));
  }

  /** A write to the command register: the transmitter. */
  lemma CommandAndTransmitter(cfg: Config, s: State, now: Tick, addr: nat, value: byte, opens: bool)
    requires RegisterOf(cfg, addr) == 2
    ensures var t := Step(cfg, s, At(now, Plainly(addr, value, opens)));
            TransmitterAfter(s, t, now, TurnOf(cfg, s, value), BitOf(value, 3) || BitOf(value, 2),
                             !BitOf(value, 3) && BitOf(value, 2))
  {
    CommandBits(value);
    Commanded(cfg, s, now, value, opens, TurnOf(cfg, s, value));
  }

  /** A read-modify-write instruction is two writes: what was read last goes back one cycle earlier. */
  lemma ModifiedInTwoWrites(cfg: Config, s: State, now: Tick, addr: nat, value: byte, opens: bool)
    requires now > 1
    ensures Step(cfg, s, At(now, StoreEv(addr, value, true, opens))) ==
            Step(cfg, Step(cfg, s, At(now - 1, Plainly(addr, s.regs.lastRead, opens))),
                 At(now, Plainly(addr, value, opens)))
  {
  }

  // ---------------------------------------------------------------- reads and reset

  /** Reading the data register takes the byte: full bit and error bits go off. */
  lemma DataReadOut(cfg: Config, s: State, now: Tick, addr: nat, dcd: bool, dsr: bool)
    requires RegisterOf(cfg, addr) == 0
    ensures var t := Step(cfg, s, At(now, ReadEv(addr, dcd, dsr)));
            && ReadValue(cfg, s, addr, dcd, dsr) == s.rx.data
            && t == s.(regs := s.regs.(lastRead := s.rx.data), status := t.status,
                       log := s.log + [AciaSpec.DataRead(s.rx.data, s.status.full)])
            && t.status == Status(false, false, false, false, s.status.empty, s.status.dcd, s.status.dsr)
  {
  }

  /** Reading the status register shows the bits, DCD and DSR as the modem lines of an open device have them now, on
      meaning zero, and acknowledges the interrupt. */
  lemma StatusReadOut(cfg: Config, s: State, now: Tick, addr: nat, dcd: bool, dsr: bool)
    requires RegisterOf(cfg, addr) == 1
    ensures var t := Step(cfg, s, At(now, ReadEv(addr, dcd, dsr)));
            var c := ReadValue(cfg, s, addr, dcd, dsr);
            var noDcd, noDsr := !(s.port.open && dcd), !(s.port.open && dsr);
            && BitOf(c, 0) == s.status.parity && BitOf(c, 1) == s.status.framing && BitOf(c, 2) == s.status.overrun
            && BitOf(c, 3) == s.status.full && BitOf(c, 4) == s.status.empty && BitOf(c, 7) == s.irq.flag
            && BitOf(c, 5) == (noDcd && !cfg.dcdAsDsr) && BitOf(c, 6) == (noDsr || (noDcd && cfg.dcdAsDsr))
            && t == s.(regs := s.regs.(lastRead := c), status := t.status, irq := t.irq, log := s.log + [StatusRead(c)])
            && t.status == s.status.(dcd := BitOf(c, 5), dsr := BitOf(c, 6))
            && IrqBecomes(cfg, s, t, false)
  {
    StatusBits(ModemStatus(cfg, s, dcd, dsr), s.irq.flag);
  }

  /** The other registers are read as they were written; bit 2 of the extended control register is a flag of its own
      that says that it is in use, and the other addresses of a Turbo232 read 0xff. */
  lemma RegistersReadOut(cfg: Config, s: State, now: Tick, addr: nat, dcd: bool, dsr: bool)
    ensures var t := Step(cfg, s, At(now, ReadEv(addr, dcd, dsr)));
            var r := RegisterOf(cfg, addr);
            var c := ReadValue(cfg, s, addr, dcd, dsr);
            && (r == 2 ==> c == s.regs.cmd) && (r == 3 ==> c == s.regs.ctrl)
            && (r == 2 || r == 3 ==> t == s.(regs := s.regs.(lastRead := c)))
            && (r == 7 ==> (c - s.regs.ectrl) % 0x100 == if ExternalClock(s.regs.ctrl) then 4 else 0)
            && (4 <= r <= 6 ==> c == 0xff)
            && (r >= 4 ==> t == s)
  {
    SpeedBits(s.regs.ctrl);
  }

  /** A hardware reset: registers zero, device closed, lines off, no alarm, no byte anywhere, transmit buffer empty. */
  lemma ResetOut(cfg: Config, s: State, now: Tick)
    ensures var t := Step(cfg, s, At(now, ResetEv));
            && t.regs == Regs(0, 0, 0, s.regs.lastRead) && t.frame == Frame(cfg.rate(0, 0, 0), 0xff)
            && t.port == Port(false, false, false)
            && t.status == Status(false, false, false, false, true, true, s.status.dsr)
            && t.tx == s.tx.(state := 0, active := false, pending := None)
            && t.rx == s.rx.(active := false, pending := None,
                             clk := if s.rx.active then now + t.frame.ticks else s.rx.clk)
            && IrqBecomes(cfg, s, t, false) && t.log == s.log + [HwReset]
  {
  }

  // ---------------------------------------------------------------- speed

  /** A character on the line: a start bit, the data bits, a parity bit if bit 5 of the command register is on, and
      one stop bit or, with bit 7 of the control register, two. */
  lemma FrameMeans(cmd: byte, ctrl: byte)
    ensures FrameBits(cmd, ctrl) == 1 + DataBits(ctrl) + Num(BitOf(cmd, 5)) + (1 + Num(BitOf(ctrl, 7)))
  {
    WordLengthBits(ctrl);
    ParityBit(cmd);
    StopBit(ctrl);
  }

  lemma ParityBit(cmd: byte)
    ensures ParityEnabled(cmd) <==> BitOf(cmd, 5)
  {
    HighBits(cmd);
  }

  lemma StopBit(ctrl: byte)
    ensures ctrl >= 0x80 <==> BitOf(ctrl, 7)
  {
    HighBits(ctrl);
    assert ctrl / 0x80 == if ctrl >= 0x80 then 1 else 0;
  }

  /** What the crystal's rate, 115200 Hz after the division by 16, is divided by for each setting but the first. */
  const DIVISORS: seq<nat> := [2304, 1536, 1048, 856, 768, 384, 192, 96, 64, 48, 32, 24, 16, 12, 6]

  /** The speeds that bits 0 to 3 of the control register select are those of the chip's divider, to the cent. */
  lemma SpeedsAreDivided(ctrl: byte, ectrl: byte)
    requires ctrl % 16 > 0
    ensures var error := Bps(Normal, ctrl, ectrl) * DIVISORS[ctrl % 16 - 1] as real - 115200.0;
            -0.005 * DIVISORS[ctrl % 16 - 1] as real <= error <= 0.005 * DIVISORS[ctrl % 16 - 1] as real
  {
    var i := ctrl % 16;
    assert i == 1 || i == 2 || i == 3 || i == 4 || i == 5 || i == 6 || i == 7 || i == 8 || i == 9 || i == 10 || i == 11
      || i == 12 || i == 13 || i == 14 || i == 15;
  }

  /** The two cards run at twice the speed, and with an external clock selected a Turbo232 takes its speed from bits 0
      and 1 of the extended control register, which halve it each time. */
  lemma CardSpeeds(ctrl: byte, ectrl: byte)
    ensures Bps(SwiftLink, ctrl, ectrl) == 2.0 * Bps(Normal, ctrl, ectrl)
    ensures ctrl % 16 > 0 ==> Bps(Turbo232, ctrl, ectrl) == 2.0 * Bps(Normal, ctrl, ectrl)
    ensures ctrl % 16 == 0 ==> Bps(Normal, ctrl, ectrl) == 10.0
    ensures ctrl % 16 == 0 ==> Bps(Turbo232, ctrl, ectrl) * Power2(ectrl % 4) as real == 230400.0
  {
    assert Power2(0) == 1 && Power2(1) == 2 && Power2(2) == 4 && Power2(3) == 8;
  }

  /** A character takes as many whole ticks as its bits take at that speed. */
  lemma TicksMean(hz: nat, mode: Mode, cmd: byte, ctrl: byte, ectrl: byte)
    requires 230400 <= hz
    ensures Lasts(TicksFor(hz, mode, cmd, ctrl, ectrl), hz, Bps(mode, ctrl, ectrl), FrameBits(cmd, ctrl))
  {
    var t: nat := TicksFor(hz, mode, cmd, ctrl, ectrl);
    WholeTicks(hz, Bps(mode, ctrl, ectrl), FrameBits(cmd, ctrl), t);
  }

  /** These are the rates of a machine. */
  lemma RateMeans(hz: nat, mode: Mode, cmd: byte, ctrl: byte, ectrl: byte)
    requires 230400 <= hz < 0x4000_0000
    ensures Lasts(RateOf(hz, mode)(cmd, ctrl, ectrl), hz, Bps(mode, ctrl, ectrl), FrameBits(cmd, ctrl))
  {
    TicksMean(hz, mode, cmd, ctrl, ectrl);
  }

  /** Of `hz` ticks a second, `t` whole ones pass in `bits / bps` seconds. */
  predicate Lasts(t: nat, hz: nat, bps: real, bits: nat) {
    t as real * bps <= hz as real * bits as real < t as real * bps + bps
  }

  lemma WholeTicks(hz: nat, bps: real, bits: nat, t: nat)
    requires bps >= 10.0 && t == TicksAt(hz, bps, bits)
    ensures Lasts(t, hz, bps, bits)
  {
    var q, b := hz as real / bps, bits as real;
    var x := q * b;
    assert q * bps == hz as real;
    assert hz as real * b == x * bps by {
      assert q * bps * b == q * b * bps;
    }
    Between(x, t as real, hz as real * b, t as real * bps, bps);
    Below(x, t as real, hz as real * b, t as real * bps, bps);
  }

  lemma Positive(d: real, bps: real)
    requires d > 0.0 && bps >= 10.0
    ensures d * bps > 0.0
  {
  }

  lemma Between(x: real, f: real, xb: real, fb: real, bps: real)
    requires f <= x < f + 1.0 && bps >= 10.0 && xb == x * bps && fb == f * bps
    ensures fb <= xb <= fb + bps && xb != fb + bps
  {
    var d := f + 1.0 - x;
    assert d * bps == fb + bps - xb;
    Positive(d, bps);
    assert (x - f) * bps >= 0.0;
  }

  lemma Below(x: real, f: real, xb: real, fb: real, bps: real)
    requires f <= x < f + 1.0 && bps >= 10.0 && xb == x * bps && fb == f * bps
    ensures xb < fb + bps
  {
    Between(x, f, xb, fb, bps);
  }
}
