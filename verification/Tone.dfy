/** tone(): the search for a prescaler, and the toggle countdown of the timer interrupt. */
module Tone {
  import opened Bits

  // The prescaler.

  /** Clock divided by two or not, the exponent of the interrupts per toggle, and the compare register. */
  datatype Setting = Setting(div2: bool, factor: int, ccmp: nat)

  /** Half a period in clock cycles, as the code computes it. */
  function HalfPeriod(clock: nat, frequency: nat): nat
    requires frequency > 0
  {
    clock / frequency / 2
  }

  /** `while ((compare_val > 0x10000) && (divisionfactor < 6))`. */
  function Halved(cv: nat, factor: int): (nat, int)
    decreases 6 - factor
  {
    if cv > 0x1_0000 && factor < 6 then Halved(cv / 2, factor + 1) else (cv, factor)
  }

  /** `--compare_val` of 32 bits, limited to the 16 bits of the register. */
  function Compare(cv: nat): nat {
    if cv == 0 || cv - 1 > 0xFFFF then 0xFFFF else cv - 1
  }

  function SettingOf(cv: nat): Setting {
    var div2 := cv >= 0x1_0000;
    var h := Halved(cv, if div2 then -1 else 0);
    Setting(div2, h.1, Compare(h.0))
  }

  method Search(cv: nat) returns (s: Setting)
    ensures s == SettingOf(cv)
  {
    var compare, factor := cv, 0;
    var div2 := compare >= 0x1_0000;
    if div2 { factor := factor - 1; }
    while compare > 0x1_0000 && factor < 6
      invariant factor <= 6 && Halved(compare, factor) == Halved(cv, if div2 then -1 else 0)
      decreases 6 - factor
    {
      compare, factor := compare / 2, factor + 1;
    }
    s := Setting(div2, factor, Compare(compare));
  }

  /** Interrupts per toggle; shifting by a negative count is undefined in C. */
  predicate Defined(s: Setting) { 0 <= s.factor <= 6 }

  /** Clock cycles between two toggles of the pin. */
  function Ticks(s: Setting): nat
    requires Defined(s)
  {
    (if s.div2 then 2 else 1) * Pow2(s.factor) * (s.ccmp + 1)
  }

  /** As many clock cycles as asked for, or less than one in 32768 too few. */
  predicate Accurate(s: Setting, cv: nat) {
    Defined(s) && Ticks(s) <= cv && 32768 * (cv - Ticks(s)) < cv
  }

  /** The loop halves n times, to a value of at least 0x8000, unless it runs out of factors. */
  lemma {:induction false} HalvedBounds(cv: nat, factor: int)
    requires cv > 0x1_0000 && -1 <= factor < 6
    ensures var (c, f) := Halved(cv, factor);
            && factor < f <= 6 && c >= 0x8000 && (c <= 0x1_0000 || f == 6)
            && c * Pow2(f - factor) <= cv < (c + 1) * Pow2(f - factor)
    decreases 6 - factor
  {
    assert Halved(cv, factor) == Halved(cv / 2, factor + 1);
    var (c, f) := Halved(cv / 2, factor + 1);
    if cv / 2 > 0x1_0000 && factor + 1 < 6 {
      HalvedBounds(cv / 2, factor + 1);
      Doubled(c, Pow2(f - factor - 1), cv);
    } else {
      Doubled(c, 1, cv);
      assert Pow2(0) == 1;
    }
  }

  lemma Doubled(c: nat, p: nat, cv: nat)
    requires c * p <= cv / 2 < (c + 1) * p
    ensures c * (2 * p) <= cv < (c + 1) * (2 * p)
  {
    assert c * (2 * p) == 2 * (c * p) && (c + 1) * (2 * p) == 2 * ((c + 1) * p);
  }

  lemma SettingIsInRange(cv: nat)
    ensures var s := SettingOf(cv); s.ccmp <= 0xFFFF && (Defined(s) <==> cv != 0x1_0000)
  {
    if cv > 0x1_0000 { HalvedBounds(cv, -1); }
  }

  /** The saturated setting, where the loop has run out of factors. */
  lemma {:induction false} OutOfFactors(cv: nat, factor: int)
    requires -1 <= factor < 6 && cv > 0x1_0000
    ensures var (c, f) := Halved(cv, factor); c > 0x1_0000 <==> cv >= 0x1_0001 * Pow2(6 - factor)
    decreases 6 - factor
  {
    assert Pow2(6 - factor) == 2 * Pow2(5 - factor);
    var m := 0x1_0001 * Pow2(5 - factor);
    assert 0x1_0001 * Pow2(6 - factor) == 2 * m;
    assert cv / 2 >= m <==> cv >= 2 * m;
    if factor + 1 < 6 {
      if cv / 2 > 0x1_0000 { OutOfFactors(cv / 2, factor + 1); } else { assert Pow2(5 - factor) >= 1 && m >= 0x1_0001; }
    } else {
      assert Pow2(0) == 1;
    }
  }

  /** Half periods that the compare register holds come out exactly, from the undivided clock. */
  lemma ShortOnesAreExact(cv: nat)
    requires 1 <= cv < 0x1_0000
    ensures var s := SettingOf(cv); Defined(s) && Ticks(s) == cv && !s.div2 && s.factor == 0
  {
    assert Pow2(0) == 1;
  }

  /** The two that are out of step: none at all gets the longest undivided period, and 0x10000 the shift that is undefined. */
  lemma TheOddOnes()
    ensures var s := SettingOf(0); Defined(s) && Ticks(s) == 0x1_0000 && !s.div2
    ensures SettingOf(0x1_0000) == Setting(true, -1, 0xFFFF)
  {
    assert Pow2(0) == 1;
  }

  lemma TicksOf(cv: nat)
    requires cv > 0x1_0000
    ensures var s := SettingOf(cv); var n := s.factor + 1;
            && Defined(s) && s.div2 && 1 <= n <= 7 && Ticks(s) == (s.ccmp + 1) * Pow2(n)
            && (cv < 0x1_0001 * 128 ==> s.ccmp + 1 >= 0x8000 && Ticks(s) <= cv < Ticks(s) + Pow2(n))
            && (cv >= 0x1_0001 * 128 ==> Ticks(s) == 0x80_0000)
  {
    HalvedBounds(cv, -1);
    OutOfFactors(cv, -1);
    var s, n := SettingOf(cv), SettingOf(cv).factor + 1;
    assert Pow2(7) == 128 && Pow2(6) == 64 && Pow2(n) == 2 * Pow2(s.factor);
    Regroup(Pow2(s.factor), s.ccmp + 1);
  }

  lemma Regroup(p: nat, c: nat)
    ensures 2 * p * c == c * (2 * p) && (c + 1) * (2 * p) == c * (2 * p) + 2 * p
  {
  }

  /** The error bound holds exactly for the half periods that are not zero, not exactly 0x10000 and not beyond what
      the largest setting reaches. */
  lemma AccurateExactly(cv: nat)
    ensures Accurate(SettingOf(cv), cv) <==> 1 <= cv <= 0x80_0100 && cv != 0x1_0000
  {
    var s := SettingOf(cv);
    if cv > 0x1_0000 {
      TicksOf(cv);
      if cv < 0x1_0001 * 128 { Close(s.ccmp + 1, Pow2(s.factor + 1), Ticks(s), cv); }
    } else {
      assert Pow2(0) == 1;
    }
  }

  /** Rounding down to a multiple c of p loses little when c is large. */
  lemma Close(c: nat, p: nat, t: nat, cv: nat)
    requires c >= 0x8000 && t == c * p && t <= cv < t + p
    ensures 32768 * (cv - t) < cv
  {
    assert c * p == 0x8000 * p + (c - 0x8000) * p;
    assert (c - 0x8000) * p >= 0;
  }

  // The same over what a caller passes: a frequency, at the clock the core was built for.

  lemma HalfPeriodAtLeast(clock: nat, frequency: nat, q: nat)
    requires frequency > 0
    ensures q <= HalfPeriod(clock, frequency) <==> 2 * q * frequency <= clock
  {
    Quotient(clock, frequency, 2 * q);
    Quotient(clock / frequency, 2, q);
  }

  /** No tone at all below two cycles, the undefined shift, and what is too slow. */
  lemma AccurateFrequencies(clock: nat, frequency: nat)
    requires frequency > 0
    ensures Accurate(SettingOf(HalfPeriod(clock, frequency)), HalfPeriod(clock, frequency)) <==>
            2 * frequency <= clock < 0x100_0202 * frequency && !(0x2_0000 * frequency <= clock < 0x2_0002 * frequency)
  {
    hide HalfPeriod, SettingOf, Accurate;
    AccurateExactly(HalfPeriod(clock, frequency));
    HalfPeriodAtLeast(clock, frequency, 1);
    HalfPeriodAtLeast(clock, frequency, 0x1_0000);
    HalfPeriodAtLeast(clock, frequency, 0x1_0001);
    HalfPeriodAtLeast(clock, frequency, 0x80_0101);
  }

  /** Accurate in terms of the tone: 2 * frequency half periods of that many cycles take no longer than a second and fall
      short of it by little. */
  predicate InTune(clock: nat, frequency: nat, ticks: nat) {
    2 * frequency * ticks <= clock && 32768 * (clock - 2 * frequency * ticks) < clock + 65536 * frequency
  }

  lemma AccurateIsInTune(clock: nat, frequency: nat)
    requires frequency > 0 && Accurate(SettingOf(HalfPeriod(clock, frequency)), HalfPeriod(clock, frequency))
    ensures InTune(clock, frequency, Ticks(SettingOf(HalfPeriod(clock, frequency))))
  {
    var cv := HalfPeriod(clock, frequency);
    var t := Ticks(SettingOf(cv));
    HalfPeriodAtLeast(clock, frequency, cv);
    HalfPeriodAtLeast(clock, frequency, cv + 1);
    hide HalfPeriod, SettingOf, Ticks;
    Scaled(clock, frequency, cv, t);
  }

  lemma Scaled(clock: nat, f: nat, cv: nat, t: nat)
    requires f > 0 && 2 * cv * f <= clock < 2 * (cv + 1) * f && t <= cv && 32768 * (cv - t) < cv
    ensures InTune(clock, f, t)
  {
    var d := cv - t;
    assert 2 * f * t == 2 * cv * f - 2 * f * d;
    assert 2 * f * d >= 0;
    assert 2 * (cv + 1) * f == 2 * cv * f + 2 * f;
    assert f * (cv - 32768 * d) >= 0;
    assert f * (cv - 32768 * d) == f * cv - 32768 * (f * d);
    assert 2 * cv * f == 2 * (f * cv) && 2 * f * d == 2 * (f * d);
  }

  /** Whether a clock of 32 bits has a frequency of 16 bits whose shift count is undefined. */
  predicate Stumbles(clock: nat) {
    exists f :: 1 <= f < 0x1_0000 && !Defined(SettingOf(HalfPeriod(clock, f)))
  }

  lemma StumblesExactly(clock: nat)
    requires clock < 0x1_0000_0000
    ensures Stumbles(clock) <==> clock % 0x2_0000 < 2 * (clock / 0x2_0000)
  {
    var q := clock / 0x2_0000;
    if clock % 0x2_0000 < 2 * q { UndefinedAt(clock, q); }
    forall f | 1 <= f < 0x1_0000 && !Defined(SettingOf(HalfPeriod(clock, f)))
      ensures clock % 0x2_0000 < 2 * q
    {
      UndefinedAt(clock, f);
    }
  }

  lemma UndefinedAt(clock: nat, frequency: nat)
    requires frequency > 0
    ensures !Defined(SettingOf(HalfPeriod(clock, frequency))) <==> 0x2_0000 * frequency <= clock < 0x2_0002 * frequency
  {
    hide HalfPeriod, SettingOf, Defined;
    SettingIsInRange(HalfPeriod(clock, frequency));
    HalfPeriodAtLeast(clock, frequency, 0x1_0000);
    HalfPeriodAtLeast(clock, frequency, 0x1_0001);
  }

  /** The clocks that the core can be built for, in MHz. */
  predicate CoreClock(mhz: nat) { mhz in {1, 2, 4, 5, 6, 8, 10, 12, 16, 20, 24, 25, 30, 32} }

  /** None of them has. */
  lemma CoreClocksDoNotStumble(mhz: nat)
    requires CoreClock(mhz)
    ensures !Stumbles(mhz * 1_000_000)
  {
    StumblesExactly(mhz * 1_000_000);
  }

  /** A clock of 2^24 Hz has. */
  lemma BinaryClockStumbles()
    ensures Stumbles(16_777_216) && !Defined(SettingOf(HalfPeriod(16_777_216, 128)))
  {
    UndefinedAt(16_777_216, 128);
  }

  /** At 20 MHz a tone of 1 Hz is already out of reach: it comes out a fifth too high. */
  lemma OneHertzAtTwentyMegahertz()
    ensures var cv := HalfPeriod(20_000_000, 1); !Accurate(SettingOf(cv), cv) && Defined(SettingOf(cv)) && Ticks(SettingOf(cv)) == 0x80_0000
  {
    AccurateExactly(10_000_000);
    TicksOf(10_000_000);
  }
}
