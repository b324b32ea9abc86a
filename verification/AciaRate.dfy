/**
 The characters' duration in CPU ticks (`get_acia_bps`, `set_acia_ticks` of aciacore.c), in exact
 arithmetic where the source uses doubles.
 */
module AciaRate {
  import opened Basics
  import opened AciaSpec

  function ParityEnabled(cmd: byte): bool { cmd / 32 % 2 == 1 }

  function FrameBits(cmd: byte, ctrl: byte): (bits: nat)
    ensures 7 <= bits <= 12
  {
    WordLength(ctrl) + 1 + (if ParityEnabled(cmd) then 1 else 0) + (if ctrl >= 0x80 then 2 else 1)
  }

  const BPS_TABLE: seq<real> :=
    [10.0, 50.0, 75.0, 109.92, 134.58, 150.0, 300.0, 600.0, 1200.0, 1800.0,
     2400.0, 3600.0, 4800.0, 7200.0, 9600.0, 19200.0]

  const T232_BPS_TABLE: seq<real> := [230400.0, 115200.0, 57600.0, 28800.0]

  /** `get_acia_bps` */
  function Bps(mode: Mode, ctrl: byte, ectrl: byte): (bps: real)
    ensures 10.0 <= bps <= 230400.0
  {
    var i := ctrl % 16;
    match mode
    case Normal => BPS_TABLE[i]
    case SwiftLink => BPS_TABLE[i] * 2.0
    case Turbo232 => if i == 0 then T232_BPS_TABLE[ectrl % 4] else BPS_TABLE[i] * 2.0
  }

  function TicksAt(hz: nat, bps: real, bits: nat): int
    requires bps >= 10.0
  {
    (hz as real / bps * bits as real).Floor
  }

  /** The ticks per character that `set_acia_ticks` computes: what seven bits take at the highest speed, less
      one, at least, and never more than two seconds. */
  function TicksFor(hz: nat, mode: Mode, cmd: byte, ctrl: byte, ectrl: byte): (t: nat)
    requires 230400 <= hz
    ensures 7 <= t <= 2 * hz && 7 * hz < 230400 * (t + 1)
  {
    TicksBounds(hz, Bps(mode, ctrl, ectrl), FrameBits(cmd, ctrl));
    TicksAt(hz, Bps(mode, ctrl, ectrl), FrameBits(cmd, ctrl))
  }

  lemma TicksBounds(hz: nat, bps: real, bits: nat)
    requires 10.0 <= bps <= 230400.0 <= hz as real && 7 <= bits <= 12
    ensures var t := TicksAt(hz, bps, bits); 7 <= t <= 2 * hz && 7 * hz < 230400 * (t + 1)
  {
    var q, b := hz as real / bps, bits as real;
    QuotientBounds(hz as real, bps);
    ProductBounds(q, b);
    FloorBounds(hz, q, q * b);
  }

  lemma ProductBounds(q: real, b: real)
    requires 0.0 <= q && 7.0 <= b <= 12.0
    ensures q * 7.0 <= q * b <= q * 12.0
  {
    assert q * (b - 7.0) >= 0.0;
    assert q * (12.0 - b) >= 0.0;
  }

  lemma FloorBounds(hz: nat, q: real, x: real)
    requires 1.0 <= q <= hz as real / 10.0 && hz as real <= 230400.0 * q && q * 7.0 <= x <= q * 12.0
    ensures 7 <= x.Floor <= 2 * hz && 7 * hz < 230400 * (x.Floor + 1)
  {
    assert 7.0 <= x <= 2.0 * hz as real;
    assert 7.0 * hz as real <= 230400.0 * x < 230400.0 * (x.Floor + 1) as real;
    assert (7 * hz) as real < (230400 * (x.Floor + 1)) as real;
  }

  lemma QuotientBounds(h: real, b: real)
    requires 10.0 <= b <= 230400.0 <= h
    ensures 1.0 <= h / b <= h / 10.0 && h <= 230400.0 * (h / b)
  {
    var q := h / b;
    assert q * b == h;
    assert q * (230400.0 - b) >= 0.0;
    assert (q - 1.0) * b >= 0.0;
    assert (h / 10.0 - q) * b >= 0.0 by {
      assert h / 10.0 * b >= h / 10.0 * 10.0;
    }
  }

  /** The rates of a machine clocked at `hz`. */
  function RateOf(hz: nat, mode: Mode): Rate
    requires 230400 <= hz < 0x4000_0000
  {
    (cmd: byte, ctrl: byte, ectrl: byte) => TicksFor(hz, mode, cmd, ctrl, ectrl)
  }
}
