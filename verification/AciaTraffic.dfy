/**
 What the ACIA's effects add up to over whole runs: which bytes are fetched, which are sent, and how often there is
 a cause for an interrupt.
 */
module AciaTraffic {
  import opened AciaEffects
  import opened AciaRuns
  import opened AciaSpec
  import opened Basics

  /** In every run the mask is that of the word length, so that what a receive alarm leaves in an empty buffer is the
      low bits of the byte, and what a transmit alarm sends is those of the waiting byte. */
  lemma WordLengthAlways(cfg: Config, run: seq<Stamped>, v: byte, k: nat)
    requires k < 8
    ensures var s := After(cfg, Start(cfg), run);
            && s.frame.datamask == Power2(DataBits(s.regs.ctrl)) - 1
            && (BitOf(Masked(v, s.frame.datamask), k) <==> k < DataBits(s.regs.ctrl) && BitOf(v, k))
  {
    MirrorAlways(cfg, run);
    MaskMeans(After(cfg, Start(cfg), run).regs.ctrl, v, k);
  }

  /** What goes over the line, and how often there is a cause for an interrupt. */
  datatype Traffic = Traffic(fetched: seq<byte>, sent: seq<byte>, causes: nat)

  function Plus(a: Traffic, b: Traffic): Traffic {
    Traffic(a.fetched + b.fetched, a.sent + b.sent, a.causes + b.causes)
  }

  const SILENCE := Traffic([], [], 0)

  function TrafficIn(e: Entry): Traffic {
    match e
    case Fetch(b, _) => Traffic([b], [], 0)
    case Sent(_, v, _, _) => if v < 0x100 then Traffic([], [v], 0) else SILENCE
    case Irq => Traffic([], [], 1)
    case _ => SILENCE
  }

  function TrafficOf(log: seq<Entry>): Traffic {
    if log == [] then SILENCE else Plus(TrafficOf(log[..|log| - 1]), TrafficIn(log[|log| - 1]))
  }

  /** What an event should bring about, from the device, the waiting byte and the command register: the receive alarm
      takes the byte that an open device has, and says so unless bit 1 is on; the transmit alarm hands over a waiting
      byte to an open device, and says so, byte or no byte, if bits 3 and 2 are 01. Nothing else does either. */
  function Due(s: State, e: Event): Traffic {
    match e
    case RxAlarm(Some(b)) => if s.port.open then Traffic([b], [], Num(!BitOf(s.regs.cmd, 1))) else SILENCE
    case TxAlarm =>
      Traffic([], if s.tx.state == 2 && s.port.open then [Masked(s.tx.data, s.frame.datamask)] else [],
              Num(!BitOf(s.regs.cmd, 3) && BitOf(s.regs.cmd, 2)))
    case _ => SILENCE
  }

  function DueIn(cfg: Config, s: State, run: seq<Stamped>): Traffic {
    if run == [] then SILENCE
    else
      var before := run[..|run| - 1];
      Plus(DueIn(cfg, s, before), Due(After(cfg, s, before), run[|run| - 1].ev))
  }

  lemma TrafficSnoc(log: seq<Entry>, e: Entry)
    ensures TrafficOf(log + [e]) == Plus(TrafficOf(log), TrafficIn(e))
  {
    assert (log + [e])[..|log + [e]| - 1] == log;
  }

  /** Nothing has been logged but perhaps one entry without traffic. */
  predicate Quiet(log: seq<Entry>, log': seq<Entry>) {
    || log' == log
    || (|log'| == |log| + 1 && log'[..|log|] == log && TrafficIn(log'[|log|]) == SILENCE)
  }

  lemma QuietTraffic(log: seq<Entry>, log': seq<Entry>)
    requires Quiet(log, log')
    ensures TrafficOf(log') == TrafficOf(log)
  {
    if log' != log {
      assert log' == log + [log'[|log|]];
      TrafficSnoc(log, log'[|log|]);
    }
  }

  lemma StoresAreQuiet(cfg: Config, s: State, now: nat, addr: nat, value: byte, opens: bool)
    ensures Quiet(s.log, StorePlain(cfg, s, now, addr, value, opens).log)
  {
    match RegisterOf(cfg, addr) {
      case 2 => Commanded(cfg, s, now, value, opens, DecodedTurn(cfg, s, value));
      case _ =>
    }
  }

  function DecodedTurn(cfg: Config, s: State, value: byte): Turn {
    if Dtr(value) && !s.port.open then Opening
    else if !Dtr(value) && s.port.open && !cfg.ip232 then Closing
    else Staying
  }

  /** The traffic of at most one entry */
  function TrafficOfOne(a: Option<Entry>): Traffic {
    if a.None? then SILENCE else TrafficIn(a.value)
  }

  function Logged(a: Option<Entry>): seq<Entry> {
    if a.None? then [] else [a.value]
  }

  lemma TwoLogged(log: seq<Entry>, a: Option<Entry>, b: Option<Entry>)
    ensures TrafficOf(log + Logged(a) + Logged(b)) == Plus(Plus(TrafficOf(log), TrafficOfOne(a)), TrafficOfOne(b))
  {
    OneLogged(log, a);
    OneLogged(log + Logged(a), b);
  }

  lemma OneLogged(log: seq<Entry>, a: Option<Entry>)
    ensures TrafficOf(log + Logged(a)) == Plus(TrafficOf(log), TrafficOfOne(a))
  {
    if a.Some? {
      TrafficSnoc(log, a.value);
    } else {
      assert log + [] == log;
    }
  }

  lemma PlusAssociates(a: Traffic, b: Traffic, c: Traffic)
    ensures Plus(Plus(a, b), c) == Plus(a, Plus(b, c))
  {
  }

  /** The two entries of an alarm, and what they amount to. */
  lemma AlarmTraffic(log: seq<Entry>, a: Option<Entry>, b: Option<Entry>, due: Traffic)
    requires due == Plus(TrafficOfOne(a), TrafficOfOne(b))
    ensures TrafficOf(log + Logged(a) + Logged(b)) == Plus(TrafficOf(log), due)
  {
    TwoLogged(log, a, b);
    PlusAssociates(TrafficOf(log), TrafficOfOne(a), TrafficOfOne(b));
  }

  function FetchIn(s: State, input: Option<byte>): Option<Entry> {
    if s.port.open && input.Some? then Some(Fetch(input.value, s.frame.datamask)) else None
  }

  function SendIn(s: State, now: nat): Option<Entry> {
    if s.tx.state != 2 then None
    else if s.port.open then
      Some(Sent(now, Masked(s.tx.data, s.frame.datamask), s.frame.datamask, s.frame.ticks))
    else Some(TxLost)
  }

  function IrqIf(on: bool): Option<Entry> {
    if on then Some(Irq) else None
  }

  lemma ReceiveTraffic(cfg: Config, s: State, now: Tick, input: Option<byte>)
    ensures TrafficOf(Step(cfg, s, At(now, RxAlarm(input))).log) == Plus(TrafficOf(s.log), Due(s, RxAlarm(input)))
  {
    var b := IrqIf(FetchIn(s, input).Some? && !RxIrqDisabled(s.regs.cmd));
    CommandBits(s.regs.cmd);
    assert Step(cfg, s, At(now, RxAlarm(input))).log == s.log + Logged(FetchIn(s, input)) + Logged(b);
    AlarmTraffic(s.log, FetchIn(s, input), b, Due(s, RxAlarm(input)));
  }

  lemma TransmitLogs(cfg: Config, s: State, now: nat)
    ensures FireTx(cfg, s, now).log
            == s.log + Logged(SendIn(s, now)) + Logged(IrqIf(Transmitter(s.regs.cmd) == TX_WITH_IRQ))
  {
  }

  lemma TransmitDue(s: State, now: nat)
    ensures Due(s, TxAlarm)
            == Plus(TrafficOfOne(SendIn(s, now)), TrafficOfOne(IrqIf(Transmitter(s.regs.cmd) == TX_WITH_IRQ)))
  {
    var v, wanted := Masked(s.tx.data, s.frame.datamask), Transmitter(s.regs.cmd) == TX_WITH_IRQ;
    CommandBits(s.regs.cmd);
    OneByte(if s.tx.state == 2 && s.port.open then [v] else [], wanted);
    assert TrafficOfOne(SendIn(s, now)) == Traffic([], if s.tx.state == 2 && s.port.open then [v] else [], 0);
  }

  lemma OneByte(sent: seq<byte>, wanted: bool)
    ensures Plus(Traffic([], sent, 0), TrafficOfOne(IrqIf(wanted))) == Traffic([], sent, Num(wanted))
  {
  }

  lemma TransmitTraffic(cfg: Config, s: State, now: Tick)
    ensures TrafficOf(Step(cfg, s, At(now, TxAlarm)).log) == Plus(TrafficOf(s.log), Due(s, TxAlarm))
  {
    TransmitLogs(cfg, s, now);
    TransmitDue(s, now);
    AlarmTraffic(s.log, SendIn(s, now), IrqIf(Transmitter(s.regs.cmd) == TX_WITH_IRQ), Due(s, TxAlarm));
  }

  lemma TrafficStep(cfg: Config, s: State, e: Stamped)
    ensures TrafficOf(Step(cfg, s, e).log) == Plus(TrafficOf(s.log), Due(s, e.ev))
  {
    match e.ev {
      case StoreEv(addr, value, rmw, opens) =>
        var s1 := WriteBack(cfg, s, e.now, addr, rmw, opens);
        if rmw {
          StoresAreQuiet(cfg, s, e.now - 1, addr, s.regs.lastRead, opens);
        }
        StoresAreQuiet(cfg, s1, e.now, addr, value, opens);
        QuietTraffic(s.log, s1.log);
        QuietTraffic(s1.log, Step(cfg, s, e).log);
      case ReadEv(addr, dcd, dsr) => QuietTraffic(s.log, Step(cfg, s, e).log);
      case TxAlarm => TransmitTraffic(cfg, s, e.now);
      case RxAlarm(input) => ReceiveTraffic(cfg, s, e.now, input);
      case ResetEv => QuietTraffic(s.log, Step(cfg, s, e).log);
    }
  }

  /** Over every run from reset: the bytes fetched are exactly those that an open device had for a receive alarm, in
      order; the bytes sent are exactly those waiting at a transmit alarm with the device open, in order; and there is
      a cause for an interrupt exactly for the alarms whose interrupts the command register lets through. */
  lemma {:induction false} TrafficAlways(cfg: Config, run: seq<Stamped>)
    ensures TrafficOf(After(cfg, Start(cfg), run).log) == DueIn(cfg, Start(cfg), run)
  {
    if run == [] {
      TrafficSnoc([], HwReset);
      assert Start(cfg).log == [] + [HwReset];
    } else {
      var before := run[..|run| - 1];
      TrafficAlways(cfg, before);
      TrafficStep(cfg, After(cfg, Start(cfg), before), run[|run| - 1]);
    }
  }
}
