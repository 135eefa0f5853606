/** The baud rate arithmetic of HardwareSerial::begin. */
module Baud {
  import opened Bits

  /** CTRLB's double-speed bit and the BAUD register. */
  datatype Rate = Rate(double: bool, setting: nat)

  /** A value stored in a 16-bit variable. */
  function Word16(x: nat): nat { x % 0x1_0000 }

  /** The divisor at normal speed. */
  function Normal(clock: nat, baud: nat): nat
    requires baud > 0
  {
    4 * clock / baud
  }

  /** The rate the divisor was computed from: halved at double speed. */
  function Effective(clock: nat, baud: nat): nat { if baud > clock / 16 then baud / 2 else baud }

  method SetBaud(clock: nat, baud: nat) returns (r: Rate)
    requires Effective(clock, baud) > 0
    ensures r == RateOf(clock, baud)
    ensures clock >= 1_000_000 && clock / 16384 < baud <= clock / 8 ==> RunsAt(clock, baud, r)
  {
    hide RunsAt;
    var b, double := baud, false;
    if b > clock / 16 {
      double := true;
      b := b / 2;
    }
    var setting := Word16(4 * clock / b);
    if setting < 64 { setting := 64; }
    r := Rate(double, setting);
    if clock >= 1_000_000 && clock / 16384 < baud <= clock / 8 { RateIsRight(clock, baud); }
  }

  /** The port runs at 64 * clock / (S * setting), S being 16 or, at double speed, 8: at the rate asked for, but for the
      rounding of the setting and of the halved rate. */
  predicate RunsAt(clock: nat, baud: nat, r: Rate) {
    var samples := if r.double then 8 else 16;
    samples * r.setting * (baud - 1) <= 64 * clock < samples * (r.setting + 1) * baud
  }

  function RateOf(clock: nat, baud: nat): Rate
    requires Effective(clock, baud) > 0
  {
    var setting := Word16(4 * clock / Effective(clock, baud));
    Rate(baud > clock / 16, if setting < 64 then 64 else setting)
  }

  /** Double speed is chosen exactly when the divisor at normal speed would be less than one (64 in the register's sixty-fourths). */
  lemma DoubleSpeedExactly(clock: nat, baud: nat)
    requires Effective(clock, baud) > 0 && baud > 0
    ensures RateOf(clock, baud).double <==> Normal(clock, baud) < 64
  {
    Quotient(4 * clock, baud, 64);
    Quotient(clock, 16, baud);
  }

  /** For rates between what 16 bits can divide down to and an eighth of the clock, the register holds the divisor itself,
      neither truncated nor clamped, rounded down. */
  lemma DivisorIsExact(clock: nat, baud: nat)
    requires clock >= 1_000_000 && clock / 16384 < baud <= clock / 8
    ensures Effective(clock, baud) > 0
    ensures var r := RateOf(clock, baud); var b := Effective(clock, baud);
            && 64 <= r.setting <= 65535 && r.setting == 4 * clock / b
            && r.setting * b <= 4 * clock < (r.setting + 1) * b
  {
    var b := Effective(clock, baud);
    var q := 4 * clock / b;
    assert 64 * b <= 4 * clock;
    Quotient(4 * clock, b, 64);
    assert 4 * clock < 65536 * b;
    Quotient(4 * clock, b, 65536);
    Quotient(4 * clock, b, q);
    Quotient(4 * clock, b, q + 1);
    assert Word16(q) == q;
  }

  /** The register is exact only there: when the divisor does not fit in 16 bits, or is less than one, it is not. */
  lemma DivisorIsExactOnly(clock: nat, baud: nat)
    requires Effective(clock, baud) > 0
    ensures RateOf(clock, baud).setting == 4 * clock / Effective(clock, baud) <==>
            64 * Effective(clock, baud) <= 4 * clock < 65536 * Effective(clock, baud)
  {
    var b := Effective(clock, baud);
    Quotient(4 * clock, b, 64);
    Quotient(4 * clock, b, 65536);
    Holds(4 * clock / b);
  }

  /** What the 16-bit variable and the clamp leave as it is. */
  lemma Holds(q: nat)
    ensures (if Word16(q) < 64 then 64 else Word16(q)) == q <==> 64 <= q < 65536
  {
  }

  /** For these rates the port runs at the rate asked for. */
  lemma RateIsRight(clock: nat, baud: nat)
    requires clock >= 1_000_000 && clock / 16384 < baud <= clock / 8
    ensures Effective(clock, baud) > 0 && RunsAt(clock, baud, RateOf(clock, baud))
  {
    DivisorIsExact(clock, baud);
    var r, b := RateOf(clock, baud), Effective(clock, baud);
    if r.double {
      Rescaled(r.setting, b, baud, 2);
      Products(r.setting, b, baud, 8);
    } else {
      Rescaled(r.setting, b, baud, 1);
      Products(r.setting, b, baud, 16);
    }
  }

  lemma Rescaled(k: nat, b: nat, baud: nat, n: nat)
    requires n * b <= baud <= n * b + 1
    ensures k * (baud - 1) <= k * (n * b) && (k + 1) * (n * b) <= (k + 1) * baud
  {
    assert k * (n * b - (baud - 1)) >= 0 && (k + 1) * (baud - n * b) >= 0;
    assert k * (n * b) == k * (baud - 1) + k * (n * b - (baud - 1));
    assert (k + 1) * baud == (k + 1) * (n * b) + (k + 1) * (baud - n * b);
  }

  lemma Products(k: nat, b: nat, baud: nat, n: nat)
    ensures n * k * (baud - 1) == n * (k * (baud - 1)) && n * (k + 1) * baud == n * ((k + 1) * baud)
    ensures k * (2 * b) == 2 * (k * b) && (k + 1) * (2 * b) == 2 * ((k + 1) * b) && k * (1 * b) == k * b && (k + 1) * (1 * b) == (k + 1) * b
  {
  }

  /** Faster rates get the fastest setting there is; slower ones get what is left of the divisor in 16 bits. */
  lemma OutOfRange(clock: nat, baud: nat)
    requires baud > 0
    ensures baud / 2 > clock / 16 ==> RateOf(clock, baud) == Rate(true, 64)
    ensures baud <= clock / 16 ==> RateOf(clock, baud).setting == (if 4 * clock / baud % 0x1_0000 < 64 then 64 else 4 * clock / baud % 0x1_0000)
  {
    if baud / 2 > clock / 16 { Quotient(4 * clock, baud / 2, 64); }
  }
}
