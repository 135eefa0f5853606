/** tone, noTone and the timer interrupt: how often the pin toggles, and which pins are left HIGH. */
module TonePlayer {
  import opened Bits
  import opened Tone

  const NOT_A_PIN: nat := 255

  /** The globals of Tone.cpp and the pins. `wired` is the pin behind timer_outtgl_reg and timer_bit_mask; `running` is the
      timer with its interrupt. `used` and `toggles` are histories: the pins ever used, the toggles since the last tone. */
  datatype Player = Player(pin: nat, wired: nat, toggleCount: int, perToggle: byte, count: byte, ccmp: nat, div2: bool,
                           running: bool, high: seq<bool>, used: set<nat>, toggles: nat)

  predicate IsPin(s: Player, p: nat) { p < |s.high| <= NOT_A_PIN }

  function Low(s: Player, p: nat): Player
    requires IsPin(s, p)
  {
    s.(high := s.high[p := false])
  }

  /** `timer_toggle_count` for a duration in milliseconds: two toggles a period, the product in 32 bits. */
  function ToggleCount(frequency: nat, duration: nat): int {
    if duration == 0 then -1 else frequency * duration % 0x1_0000_0000 / 500
  }

  /** 1 << divisionfactor, where C defines it; any byte where it does not. */
  function PerToggle(s: Setting, undefined: byte): byte {
    assert Pow2(6) == 64;
    if Defined(s) then
      PowBound(s.factor);
      Pow2(s.factor)
    else undefined
  }

  lemma {:induction false} PowBound(k: nat)
    requires k <= 6
    ensures Pow2(k) <= 64
  {
    assert Pow2(0) == 1 && Pow2(1) == 2 && Pow2(2) == 4 && Pow2(3) == 8 && Pow2(4) == 16 && Pow2(5) == 32 && Pow2(6) == 64;
  }

  /** disableTimer: all of CTRLA goes to zero, the clock selection with it. */
  function Disabled(s: Player): Player
    requires IsPin(s, s.wired)
  {
    Low(s.(running := false, div2 := false, pin := NOT_A_PIN), s.wired)
  }

  function NoTone(s: Player, pin: nat): Player
    requires pin != NOT_A_PIN && (pin == s.pin ==> IsPin(s, s.wired))
  {
    if pin == s.pin then Disabled(s.(toggleCount := 0)) else s
  }

  /** The pin that tone configures: the old one goes LOW first. */
  function Wired(s: Player, pin: nat): Player
    requires IsPin(s, pin) && (s.pin != NOT_A_PIN ==> IsPin(s, s.wired))
  {
    if s.pin == pin then s
    else
      var s1 := if s.pin != NOT_A_PIN then Low(s, s.wired) else s;
      Low(s1.(wired := pin, used := s1.used + {pin}), pin)
  }

  /** The interrupt's routine. The count is decremented in 8 bits. */
  function Turn(s: Player): Player
    requires IsPin(s, s.wired)
  {
    var count: byte := if s.count == 0 then 255 else s.count - 1;
    if count != 0 then s.(count := count)
    else
      var s1 := s.(count := s.perToggle, high := s.high[s.wired := !s.high[s.wired]], toggles := s.toggles + 1);
      if s.toggleCount > 0 then s1.(toggleCount := s.toggleCount - 1)
      else if s.toggleCount == 0 then Disabled(s1)
      else s1
  }

  /** The interrupt of the timer. */
  function Interrupt(s: Player): Player
    requires s.running ==> IsPin(s, s.wired)
  {
    if s.running then Turn(s) else s
  }

  /** The store of the clock selection to CTRLA stops the timer; an interrupt that is pending then is taken right after it. */
  function Halted(s: Player, div2: bool, pending: bool): (t: Player)
    requires s.running ==> IsPin(s, s.wired)
    ensures |t.high| == |s.high| && t.wired == s.wired && (t.pin == s.pin || t.pin == NOT_A_PIN)
  {
    var s1 := s.(running := false, div2 := div2);
    if pending && s.running then Turn(s1) else s1
  }

  function Play(s: Player, clock: nat, undefined: byte, pin: nat, frequency: nat, duration: nat, pending: bool): Player
    requires pin != NOT_A_PIN && (s.pin != NOT_A_PIN || s.running ==> IsPin(s, s.wired))
  {
    if frequency == 0 then NoTone(s, pin)
    else if !IsPin(s, pin) then s
    else
      var setting := SettingOf(HalfPeriod(clock, frequency));
      var per := PerToggle(setting, undefined);
      Wired(Halted(s, setting.div2, pending), pin).(toggleCount := ToggleCount(frequency, duration), perToggle := per, count := per,
        ccmp := setting.ccmp, pin := pin, running := true, toggles := 0)
  }

  // How often the pin toggles.

  /** Interrupts from a count to the toggle; zero stands for 256. */
  function Turns(count: byte): nat { if count == 0 then 256 else count }

  predicate Sound(s: Player) { s.running ==> IsPin(s, s.wired) && s.pin == s.wired }

  function Interrupts(s: Player, n: nat): Player
    requires Sound(s)
    decreases n
  {
    if n == 0 then s else Interrupts(Interrupt(s), n - 1)
  }

  /** Interrupts until the timer is disabled. */
  function Left(s: Player): nat
    requires s.toggleCount >= 0
  {
    Turns(s.count) + s.toggleCount * Turns(s.perToggle)
  }

  /** One interrupt nearer to the end. */
  predicate OneLess(s: Player, t: Player)
    requires s.toggleCount >= 0
  {
    && Sound(t) && t.running && t.toggleCount >= 0 && Left(t) == Left(s) - 1
    && t.perToggle == s.perToggle && t.toggles + t.toggleCount == s.toggles + s.toggleCount
  }

  lemma InterruptCounts(s: Player)
    requires Sound(s) && s.running && s.toggleCount >= 0
    ensures if Left(s) == 1 then !Interrupt(s).running && Interrupt(s).toggles == s.toggles + 1 && s.toggleCount == 0
            else OneLess(s, Interrupt(s))
  {
    var k, p := s.toggleCount, Turns(s.perToggle);
    Product(k, p);
    if s.count != 1 {
      assert Interrupt(s) == s.(count := if s.count == 0 then 255 else s.count - 1);
    } else if k > 0 {
      assert Left(Interrupt(s)) == p + (k - 1) * p;
    }
  }

  lemma Product(k: nat, p: nat)
    ensures k * p >= 0 && (k > 0 ==> k * p >= p && k * p == p + (k - 1) * p)
  {
    if k > 0 {
      assert k * p == p + (k - 1) * p;
      assert (k - 1) * p >= 0;
    }
  }

  /** A tone with a toggle count runs for exactly Left interrupts and toggles its pin once for each count and once more. */
  lemma {:induction false} RunsOut(s: Player, n: nat)
    requires Sound(s) && s.running && s.toggleCount >= 0
    ensures var t := Interrupts(s, n);
            && (t.running <==> n < Left(s))
            && (n >= Left(s) ==> t.toggles == s.toggles + s.toggleCount + 1)
    decreases n
  {
    if n != 0 {
      InterruptCounts(s);
      if Left(s) == 1 { Stays(Interrupt(s), n - 1); } else { RunsOut(Interrupt(s), n - 1); }
    }
  }

  lemma {:induction false} Stays(s: Player, n: nat)
    requires !s.running
    ensures Interrupts(s, n) == s
    decreases n
  {
    if n != 0 { Stays(s, n - 1); }
  }

  /** What tone leaves behind for its interrupt. */
  predicate Started(t: Player, pin: nat, count: int) {
    Sound(t) && t.running && t.pin == pin && t.toggleCount == count && t.count == t.perToggle && t.toggles == 0
  }

  /** Clock cycles between two toggles, from what the timer and the interrupt have been left. */
  function Spacing(t: Player): nat { (if t.div2 then 2 else 1) * Turns(t.perToggle) * (t.ccmp + 1) }

  /** Unless a pending interrupt erases the divided clock, a tone is in tune for every clock and frequency in range. */
  lemma PlayedInTune(s: Player, clock: nat, undefined: byte, pin: nat, frequency: nat, duration: nat, pending: bool)
    requires Safe(s) && IsPin(s, pin) && frequency > 0 && !Erases(s, pending)
    requires 2 * frequency <= clock < 0x100_0202 * frequency && !(0x2_0000 * frequency <= clock < 0x2_0002 * frequency)
    ensures InTune(clock, frequency, Spacing(Play(s, clock, undefined, pin, frequency, duration, pending)))
  {
    var setting := SettingOf(HalfPeriod(clock, frequency));
    AccurateFrequencies(clock, frequency);
    AccurateIsInTune(clock, frequency);
    PlayStarts(s, clock, undefined, pin, frequency, duration, pending);
    hide SettingOf, HalfPeriod, InTune;
    PowBound(setting.factor);
    Powers(setting.factor);
  }

  /** A tone of frequency 0 ends the tone of that pin, LOW and for good, and leaves the tone of any other pin alone. */
  lemma ZeroEndsTheTone(s: Player, clock: nat, undefined: byte, pin: nat, duration: nat, pending: bool)
    requires Safe(s) && pin != NOT_A_PIN
    ensures var t := Play(s, clock, undefined, pin, 0, duration, pending);
            if pin == s.pin then
              && !t.running && t.pin == NOT_A_PIN && pin < |s.high| && t.high == s.high[pin := false]
              && (forall n: nat :: Interrupts(t, n) == t)
            else t == s
  {
    SilenceEndsTheTone(s, pin);
  }

  /** A number that is no pin changes nothing. */
  lemma NoPinNoTone(s: Player, clock: nat, undefined: byte, pin: nat, frequency: nat, duration: nat, pending: bool)
    requires Safe(s) && pin != NOT_A_PIN && pin >= |s.high|
    ensures Play(s, clock, undefined, pin, frequency, duration, pending) == s
  {
  }

  /** A new tone on the pin that plays goes on from the level it has; any other pin begins LOW, and the one before ends LOW. */
  lemma LevelAtTheStart(s: Player, clock: nat, undefined: byte, pin: nat, frequency: nat, duration: nat)
    requires Safe(s) && IsPin(s, pin) && frequency > 0
    ensures var t := Play(s, clock, undefined, pin, frequency, duration, false);
            t.high == if pin == s.pin then s.high else if s.pin == NOT_A_PIN then s.high[pin := false] else s.high[s.pin := false][pin := false]
  {
  }

  /** The interrupt that is pending is the last one of the tone before: it disables the timer. */
  predicate Erases(s: Player, pending: bool) { pending && s.running && s.count == 1 && s.toggleCount == 0 }

  lemma PlayStarts(s: Player, clock: nat, undefined: byte, pin: nat, frequency: nat, duration: nat, pending: bool)
    requires Sound(s) && (s.pin != NOT_A_PIN ==> s.running) && IsPin(s, pin) && frequency > 0
    ensures Started(Play(s, clock, undefined, pin, frequency, duration, pending), pin, ToggleCount(frequency, duration))
    ensures var t := Play(s, clock, undefined, pin, frequency, duration, pending); var setting := SettingOf(HalfPeriod(clock, frequency));
            && t.ccmp == setting.ccmp && t.div2 == (setting.div2 && !Erases(s, pending))
            && (Defined(setting) ==> t.perToggle == Pow2(setting.factor))
    ensures pin != s.pin ==> !Play(s, clock, undefined, pin, frequency, duration, pending).high[pin]
  {
  }

  /** An interrupt that is pending as tone stops the timer might as well have been taken before the call, exactly unless it
      is the last one of the tone before and the new one needs the divided clock. */
  lemma PendingIsBefore(s: Player, clock: nat, undefined: byte, pin: nat, frequency: nat, duration: nat)
    requires Sound(s) && s.running && IsPin(s, pin) && frequency > 0
    ensures var setting := SettingOf(HalfPeriod(clock, frequency));
            Play(s, clock, undefined, pin, frequency, duration, true) == Play(Interrupt(s), clock, undefined, pin, frequency, duration, false)
            <==> !(Erases(s, true) && setting.div2)
  {
    var setting := SettingOf(HalfPeriod(clock, frequency));
    hide SettingOf, HalfPeriod, PerToggle, ToggleCount;
    TurnKeepsSelection(s, setting.div2);
  }

  lemma TurnKeepsSelection(s: Player, div2: bool)
    requires IsPin(s, s.wired)
    ensures var t := Turn(s.(running := false, div2 := div2));
            && t == Turn(s).(running := false, div2 := div2 && !(s.count == 1 && s.toggleCount == 0))
  {
  }

  /** Then the new tone runs from the undivided clock, an octave high. */
  lemma AnOctaveHigh(s: Player, clock: nat, undefined: byte, pin: nat, frequency: nat, duration: nat)
    requires Sound(s) && Erases(s, true) && IsPin(s, pin) && frequency > 0 && Defined(SettingOf(HalfPeriod(clock, frequency)))
    requires SettingOf(HalfPeriod(clock, frequency)).div2
    ensures var t := Play(s, clock, undefined, pin, frequency, duration, true); var setting := SettingOf(HalfPeriod(clock, frequency));
            2 * ((if t.div2 then 2 else 1) * Turns(t.perToggle) * (t.ccmp + 1)) == Ticks(setting)
  {
    var setting := SettingOf(HalfPeriod(clock, frequency));
    hide SettingOf, HalfPeriod, ToggleCount;
    PlayStarts(s, clock, undefined, pin, frequency, duration, true);
    PowBound(setting.factor);
    Powers(setting.factor);
    assert 1 * Pow2(setting.factor) * (setting.ccmp + 1) == Pow2(setting.factor) * (setting.ccmp + 1);
    Twice(Pow2(setting.factor), setting.ccmp + 1);
  }

  /** Every tone that has a duration comes to its last interrupt, one before its end. */
  lemma {:induction false} LastInterrupt(s: Player)
    requires Sound(s) && s.running && s.toggleCount >= 0
    ensures Left(s) > 0 && Sound(Interrupts(s, Left(s) - 1)) && Erases(Interrupts(s, Left(s) - 1), true)
    ensures Interrupts(s, Left(s) - 1).pin == s.pin && |Interrupts(s, Left(s) - 1).high| == |s.high|
    decreases Left(s)
  {
    Product(s.toggleCount, Turns(s.perToggle));
    if Left(s) > 1 {
      var t := Interrupt(s);
      InterruptCounts(s);
      LastInterrupt(t);
      assert Interrupts(s, Left(s) - 1) == Interrupts(t, Left(t) - 1);
    }
  }

  /** So two calls of tone are enough: any first one with a duration, and a second one that needs the divided clock, made as
      the last interrupt of the first is due. */
  lemma TwoCallsAnOctaveHigh(s: Player, clock: nat, undefined: byte, p: nat, f: nat, duration: nat, pin: nat, frequency: nat, d: nat)
    requires Safe(s) && IsPin(s, p) && f > 0 && ToggleCount(f, duration) >= 0
    requires IsPin(s, pin) && frequency > 0 && SettingOf(HalfPeriod(clock, frequency)).div2 && Defined(SettingOf(HalfPeriod(clock, frequency)))
    ensures var t := Play(s, clock, undefined, p, f, duration, false);
            && Sound(t) && t.running && t.toggleCount >= 0 && Left(t) > 0
            && var u := Interrupts(t, Left(t) - 1);
            && Sound(u) && u.running && IsPin(u, pin)
            && var v := Play(u, clock, undefined, pin, frequency, d, true);
            && v.running && v.pin == pin
            && 2 * ((if v.div2 then 2 else 1) * Turns(v.perToggle) * (v.ccmp + 1)) == Ticks(SettingOf(HalfPeriod(clock, frequency)))
  {
    PlayStarts(s, clock, undefined, p, f, duration, false);
    PlayIsSafe(s, clock, undefined, p, f, duration, false);
    var t := Play(s, clock, undefined, p, f, duration, false);
    hide SettingOf, HalfPeriod, Ticks, Defined, PerToggle, ToggleCount, Left, Interrupts;
    LastInterrupt(t);
    var u := Interrupts(t, Left(t) - 1);
    PlayStarts(u, clock, undefined, pin, frequency, d, true);
    AnOctaveHigh(u, clock, undefined, pin, frequency, d);
  }

  lemma HundredHertz()
    ensures ToggleCount(1000, 100) == 200
    ensures var setting := SettingOf(HalfPeriod(20_000_000, 100)); setting.div2 && Defined(setting) && Ticks(setting) == 100_000
  {
    var cv := HalfPeriod(20_000_000, 100);
    assert cv == 100_000;
    assert Halved(100_000, -1) == Halved(50_000, 0) == (50_000, 0);
    assert Pow2(0) == 1;
  }

  /** At 20 MHz, 1000 Hz for 100 ms and then 100 Hz: the half period is 50000 cycles in place of 100000. */
  lemma HundredHertzAtTwoHundred(s: Player, undefined: byte, p: nat)
    requires Safe(s) && IsPin(s, p)
    ensures var t := Play(s, 20_000_000, undefined, p, 1000, 100, false);
            && Sound(t) && t.toggleCount == 200
            && var u := Interrupts(t, Left(t) - 1);
            && Sound(u) && u.running
            && var v := Play(u, 20_000_000, undefined, p, 100, 0, true);
            && v.running && v.pin == p && (if v.div2 then 2 else 1) * Turns(v.perToggle) * (v.ccmp + 1) == 50_000
  {
    HundredHertz();
    PlayStarts(s, 20_000_000, undefined, p, 1000, 100, false);
    hide SettingOf, HalfPeriod, Ticks, Defined, PerToggle, ToggleCount, Left, Interrupts;
    TwoCallsAnOctaveHigh(s, 20_000_000, undefined, p, 1000, 100, p, 100, 0);
  }

  lemma Twice(p: nat, c: nat)
    ensures 2 * p * c == 2 * (p * c)
  {
  }

  lemma {:induction false} Powers(k: int)
    requires 0 <= k
    ensures Pow2(k) > 0
  {
    if k > 0 { Powers(k - 1); }
  }

  /** noTone for the pin that plays ends the tone, LOW; for any other it changes nothing. */
  lemma SilenceEndsTheTone(s: Player, pin: nat)
    requires Sound(s) && (s.pin == NOT_A_PIN <==> !s.running) && pin != NOT_A_PIN
    ensures var t := NoTone(s, pin);
            if pin == s.pin then !t.running && t.pin == NOT_A_PIN && pin < |t.high| && !t.high[pin] && (forall n: nat :: Interrupts(t, n) == t)
            else t == s
  {
    if pin == s.pin {
      forall n: nat ensures Interrupts(NoTone(s, pin), n) == NoTone(s, pin) { Stays(NoTone(s, pin), n); }
    }
  }

  /** From s to t the level of the pin, and of no other, changed as often as the count of toggles. */
  predicate LevelsFollow(s: Player, t: Player) {
    && IsPin(s, s.wired) && t.wired == s.wired && t.toggles >= s.toggles
    && t.high == s.high[s.wired := s.high[s.wired] != Odd(t.toggles - s.toggles)]
  }

  lemma LevelsFollowOn(s: Player, t: Player, u: Player)
    requires LevelsFollow(s, t) && LevelsFollow(t, u)
    ensures LevelsFollow(s, u)
  {
    ParityAdds(t.toggles - s.toggles, u.toggles - t.toggles);
  }

  /** While a tone runs, every toggle counted is a change of the level of its pin and of no other. */
  lemma {:induction false} LevelsFollowTheCount(s: Player, n: nat)
    requires Sound(s) && s.running
    ensures Interrupts(s, n).running ==> LevelsFollow(s, Interrupts(s, n))
    decreases n
  {
    if n == 0 {
      assert s.high == s.high[s.wired := s.high[s.wired]];
    } else if Interrupt(s).running {
      LevelsFollowTheCount(Interrupt(s), n - 1);
      if Interrupts(s, n).running { LevelsFollowOn(s, Interrupt(s), Interrupts(s, n)); }
    } else {
      Stays(Interrupt(s), n - 1);
    }
  }

  lemma ParityAdds(a: int, b: int)
    requires a >= 0 && b >= 0
    ensures Odd(a + b) == (Odd(a) != Odd(b))
  {
  }

  /** ... and they come evenly, one every c interrupts. */
  lemma {:induction false} TogglesComeEvenly(s: Player, n: nat, done: nat)
    requires Sound(s) && s.running && Turns(s.count) <= Turns(s.perToggle)
    requires done == s.toggles * Turns(s.perToggle) + (Turns(s.perToggle) - Turns(s.count))
    ensures var t := Interrupts(s, n); var c := Turns(s.perToggle);
            t.running ==> t.toggles == (done + n) / c
    decreases n
  {
    var c := Turns(s.perToggle);
    if n == 0 {
      DivUnique(done, c, s.toggles, c - Turns(s.count));
    } else if Interrupt(s).running {
      var t := Interrupt(s);
      assert t.perToggle == s.perToggle;
      if t.toggles == s.toggles + 1 { assert t.toggles * c == s.toggles * c + c; }
      TogglesComeEvenly(t, n - 1, done + 1);
    } else {
      Stays(Interrupt(s), n - 1);
    }
  }

  /** A tone with toggle count N stops after exactly (N + 1) * c interrupts, having toggled its pin exactly N + 1 times. */
  lemma ToneEnds(t: Player, pin: nat, count: nat, n: nat)
    requires Started(t, pin, count)
    ensures Interrupts(t, n).running <==> n < (count + 1) * Turns(t.perToggle)
    ensures n >= (count + 1) * Turns(t.perToggle) ==> Interrupts(t, n).toggles == count + 1
  {
    RunsOut(t, n);
    var c := Turns(t.perToggle);
    assert (count + 1) * c == c + count * c;
  }

  /** A tone without a duration never ends by itself. */
  lemma {:induction false} EndlessToneGoesOn(s: Player, n: nat)
    requires Sound(s) && s.running && s.toggleCount < 0
    ensures Interrupts(s, n).running && Interrupts(s, n).toggleCount == s.toggleCount
    decreases n
  {
    if n != 0 { EndlessToneGoesOn(Interrupt(s), n - 1); }
  }

  /** The count is two toggles for every period in the duration exactly when the product fits in 32 bits. */
  lemma CountIsRight(frequency: nat, duration: nat)
    ensures duration == 0 ==> ToggleCount(frequency, duration) < 0
    ensures duration > 0 ==> (ToggleCount(frequency, duration) == frequency * duration / 500 <==> frequency * duration < 0x1_0000_0000)
    ensures duration > 0 ==> 500 * ToggleCount(frequency, duration) <= frequency * duration % 0x1_0000_0000 < 500 * ToggleCount(frequency, duration) + 500
  {
    var x := frequency * duration;
    if x < 0x1_0000_0000 {
      assert x % 0x1_0000_0000 == x;
    } else {
      assert x % 0x1_0000_0000 + 500 <= x;
      assert (x % 0x1_0000_0000 + 500) / 500 <= x / 500;
    }
  }

  // Which pins are left HIGH.

  datatype Event = Tone(pin: nat, frequency: nat, duration: nat, pending: bool) | Silence(pin: nat) | Tick

  /** noTone(NOT_A_PIN) is left out. */
  predicate Allowed(e: Event) { !e.Tick? ==> e.pin != NOT_A_PIN }

  predicate Safe(s: Player) {
    && Sound(s) && (s.pin == NOT_A_PIN <==> !s.running) && |s.high| <= NOT_A_PIN
    && (forall p :: p in s.used ==> IsPin(s, p) && (p != s.pin ==> !s.high[p]))
    && (s.running ==> s.wired in s.used)
  }

  function After(s: Player, clock: nat, undefined: byte, e: Event): Player
    requires Safe(s) && Allowed(e)
  {
    match e
    case Tone(pin, frequency, duration, pending) => Play(s, clock, undefined, pin, frequency, duration, pending)
    case Silence(pin) => NoTone(s, pin)
    case Tick => Interrupt(s)
  }

  /** Between the stop of the timer and its new start: of the pins ever used only the current one may be HIGH. */
  predicate Stopped(s: Player) {
    && |s.high| <= NOT_A_PIN && (forall p :: p in s.used ==> IsPin(s, p) && (p != s.pin ==> !s.high[p]))
    && (s.pin != NOT_A_PIN ==> s.pin == s.wired && s.wired in s.used)
  }

  /** No pin but those used so far has changed. */
  predicate OthersKept(s: Player, t: Player) {
    |t.high| == |s.high| && s.used <= t.used && (forall p :: 0 <= p < |s.high| && p !in t.used ==> t.high[p] == s.high[p])
  }

  lemma TurnIsSafe(s: Player)
    requires Stopped(s) && s.pin != NOT_A_PIN
    ensures Stopped(Turn(s)) && OthersKept(s, Turn(s))
  {
  }

  lemma WiredIsSafe(s: Player, pin: nat)
    requires Stopped(s) && IsPin(s, pin)
    ensures var t := Wired(s, pin); Stopped(t.(pin := pin)) && t.wired == pin && OthersKept(s, t)
  {
  }

  lemma PlayIsSafe(s: Player, clock: nat, undefined: byte, pin: nat, frequency: nat, duration: nat, pending: bool)
    requires Safe(s) && IsPin(s, pin) && frequency > 0
    ensures var t := Play(s, clock, undefined, pin, frequency, duration, pending); Safe(t) && OthersKept(s, t)
  {
    var s1 := s.(running := false, div2 := SettingOf(HalfPeriod(clock, frequency)).div2);
    hide SettingOf, HalfPeriod, PerToggle, ToggleCount, Turn, Wired;
    if pending && s.running {
      TurnIsSafe(s1);
      WiredIsSafe(Turn(s1), pin);
    } else {
      WiredIsSafe(s1, pin);
    }
  }

  lemma AfterIsSafe(s: Player, clock: nat, undefined: byte, e: Event)
    requires Safe(s) && Allowed(e)
    ensures var t := After(s, clock, undefined, e); Safe(t) && OthersKept(s, t)
  {
    if e.Tone? && e.frequency > 0 && IsPin(s, e.pin) {
      PlayIsSafe(s, clock, undefined, e.pin, e.frequency, e.duration, e.pending);
    }
  }

  function History(s: Player, clock: nat, undefined: byte, es: seq<Event>): (t: Player)
    requires Safe(s) && forall e :: e in es ==> Allowed(e)
    ensures Safe(t) && |t.high| == |s.high|
    decreases |es|
  {
    if es == [] then s
    else
      AfterIsSafe(s, clock, undefined, es[0]);
      History(After(s, clock, undefined, es[0]), clock, undefined, es[1..])
  }

  /** Over every history of tone, noTone and interrupts: pins that were used and are not the current one are LOW, and
      pins that were never used are as they were. */
  lemma {:induction false} OldPinsAreLow(s: Player, clock: nat, undefined: byte, es: seq<Event>)
    requires Safe(s) && forall e :: e in es ==> Allowed(e)
    ensures var t := History(s, clock, undefined, es);
            && s.used <= t.used
            && (forall p :: p in t.used && p != t.pin ==> p < |t.high| && !t.high[p])
            && (forall p :: 0 <= p < |s.high| && p !in t.used ==> t.high[p] == s.high[p])
    decreases |es|
  {
    if es != [] {
      AfterIsSafe(s, clock, undefined, es[0]);
      OldPinsAreLow(After(s, clock, undefined, es[0]), clock, undefined, es[1..]);
    }
  }

  /** The globals as they are changed in place. */
  class ToneTimer {
    const clock: nat
    const undefined: byte
    var pin: nat
    var wired: nat
    var toggleCount: int
    var perToggle: byte
    var count: byte
    var ccmp: nat
    var div2: bool
    var running: bool
    var high: seq<bool>
    ghost var used: set<nat>
    ghost var toggles: nat

    ghost function Abs(): Player
      reads this
    {
      Player(pin, wired, toggleCount, perToggle, count, ccmp, div2, running, high, used, toggles)
    }

    constructor (clock: nat, undefined: byte, pins: seq<bool>)
      requires |pins| <= NOT_A_PIN
      ensures Safe(Abs()) && used == {} && high == pins
    {
      this.clock, this.undefined := clock, undefined;
      pin, wired, toggleCount, perToggle, count, ccmp, div2, running := NOT_A_PIN, 0, 0, 0, 0, 0, false, false;
      high, used, toggles := pins, {}, 0;
    }

    method DisableTimer()
      requires IsPin(Abs(), wired)
      modifies this
      ensures Abs() == Disabled(old(Abs()))
    {
      running, div2 := false, false;
      pin := NOT_A_PIN;
      high := high[wired := false];
    }

    method NoToneOn(p: nat)
      requires Safe(Abs()) && p != NOT_A_PIN
      modifies this
      ensures Abs() == NoTone(old(Abs()), p) && Safe(Abs())
      ensures p == old(pin) ==> !running && pin == NOT_A_PIN && p < |old(high)| && high == old(high)[p := false]
      ensures p != old(pin) ==> Abs() == old(Abs())
    {
      AfterIsSafe(Abs(), clock, undefined, Silence(p));
      if p == pin {
        toggleCount := 0;
        pin := NOT_A_PIN;
        DisableTimer();
      }
    }

    method PlayOn(p: nat, frequency: nat, duration: nat, pending: bool)
      requires Safe(Abs()) && p != NOT_A_PIN
      modifies this
      ensures Abs() == Play(old(Abs()), clock, undefined, p, frequency, duration, pending) && Safe(Abs())
      ensures frequency == 0 && p == old(pin) ==> !running && pin == NOT_A_PIN && p < |old(high)| && high == old(high)[p := false]
      ensures (frequency == 0 && p != old(pin)) || p >= |old(high)| ==> Abs() == old(Abs())
      ensures frequency > 0 && p < |old(high)| ==> running && pin == p && wired == p && toggles == 0 && count == perToggle
    {
      AfterIsSafe(Abs(), clock, undefined, Tone(p, frequency, duration, pending));
      if frequency == 0 {
        NoToneOn(p);
        return;
      }
      if p >= |high| { return; }
      Begin(p, frequency, duration, pending);
    }

    /** Makes p the pin behind the toggle register, LOW; the one before goes LOW, too. */
    method Wire(p: nat)
      requires IsPin(Abs(), p) && (pin != NOT_A_PIN ==> IsPin(Abs(), wired))
      modifies this`wired, this`high, this`used
      ensures Abs() == Wired(old(Abs()), p)
    {
      if pin != p {
        if pin != NOT_A_PIN { high := high[wired := false]; }
        wired := p;
        used := used + {p};
        high := high[p := false];
      }
    }

    /** The rest of tone, for a frequency and a pin that are valid; an interrupt may be pending as the timer stops. */
    method Begin(p: nat, frequency: nat, duration: nat, pending: bool)
      requires IsPin(Abs(), p) && frequency > 0 && (pin != NOT_A_PIN || running ==> IsPin(Abs(), wired))
      modifies this
      ensures Abs() == Play(old(Abs()), clock, undefined, p, frequency, duration, pending)
    {
      var n := if duration > 0 then frequency * duration % 0x1_0000_0000 / 500 else -1;
      var setting := Search(clock / frequency / 2);
      Halt(setting.div2, pending);
      Wire(p);
      toggleCount := n;
      perToggle := PerToggle(setting, undefined);
      count := perToggle;
      ccmp := setting.ccmp;
      pin := p;
      running := true;
      toggles := 0;
    }

    method Halt(divided: bool, pending: bool)
      requires running ==> IsPin(Abs(), wired)
      modifies this
      ensures Abs() == Halted(old(Abs()), divided, pending)
    {
      var was := running;
      running, div2 := false, divided;
      if pending && was { Service(); }
    }

    /** The routine of the interrupt. */
    method Service()
      requires IsPin(Abs(), wired)
      modifies this
      ensures Abs() == Turn(old(Abs()))
    {
      count := if count == 0 then 255 else count - 1;
      if count == 0 {
        count := perToggle;
        high := high[wired := !high[wired]];
        toggles := toggles + 1;
        if toggleCount > 0 {
          toggleCount := toggleCount - 1;
        } else if toggleCount == 0 {
          DisableTimer();
        }
      }
    }

    /** The interrupt of the timer. */
    method TimerInterrupt()
      requires Safe(Abs()) && running
      modifies this
      ensures Abs() == Interrupt(old(Abs())) && Safe(Abs())
    {
      AfterIsSafe(Abs(), clock, undefined, Tick);
      Service();
    }
  }
}
