/** Which program a reset starts: Optiboot's decision on the reset flags, over every history of resets. */
module OptibootReset {
  import opened Bits

  datatype Cause = PowerOn | BrownOut | External | Watchdog | Software | Updi

  /** The bit of RSTCTRL.RSTFR that a cause sets. */
  function Flag(c: Cause): byte {
    match c
    case PowerOn => 0x01
    case BrownOut => 0x02
    case External => 0x04
    case Watchdog => 0x08
    case Software => 0x10
    case Updi => 0x20
  }

  /** Reset flags add up until they are cleared; a power-on clears the others. */
  function Flagged(rstfr: byte, c: Cause): byte {
    if c == PowerOn then Flag(c) else OrByte(rstfr, Flag(c))
  }

  /** Flags are cleared by writing ones. */
  function Cleared(rstfr: byte, v: byte): byte { rstfr - AndByte(rstfr, v) }

  /** What runs: the application, the bootloader's command loop, or nothing until a software reset takes effect. */
  datatype Running = App | Session | Resetting
  datatype Device = Device(rstfr: byte, gpior0: byte, watchdog: bool, running: Running)

  /** ENTRYCOND_REQUIRE: power-on, external, software and UPDI resets. */
  const REQUIRE: byte := 0x35

  /** The beginning of main. */
  function Main(d: Device): Device {
    var ch := d.rstfr;
    if ch == 0 then d.(running := Resetting)
    else if AndByte(ch, 0x08) != 0 || AndByte(ch, REQUIRE) == 0 then
      Device(Cleared(d.rstfr, ch), ch, false, App)
    else d.(watchdog := true, running := Session)
  }

  /** A reset, or execution that runs into the bootloader without one. */
  datatype Event = Reset(cause: Cause) | RunsIn

  function After(d: Device, e: Event): Device {
    match e
    case Reset(c) => Main(Device(Flagged(d.rstfr, c), 0, false, App))
    case RunsIn => if d.running == App then Main(d) else d
  }

  function History(es: seq<Event>): Device {
    if es == [] then Main(Device(Flag(PowerOn), 0, false, App)) else After(History(es[..|es| - 1]), es[|es| - 1])
  }

  // Flags bit by bit.

  function Place(c: Cause): nat {
    match c case PowerOn => 0 case BrownOut => 1 case External => 2 case Watchdog => 3 case Software => 4 case Updi => 5
  }

  predicate Has(rstfr: byte, c: Cause) { Bit(rstfr, Place(c)) }

  predicate Disjoint(a: nat, b: nat, n: nat) { forall k: nat :: k < n ==> !(Bit(a, k) && Bit(b, k)) }

  /** A mask leaves nothing exactly when no bit is in both. */
  lemma AndIsZero(a: nat, b: nat, n: nat)
    requires b < Pow2(n)
    ensures And(a, b) == 0 <==> Disjoint(a, b, n)
  {
    forall k: nat | k < n
      ensures Bit(And(a, b), k) == (Bit(a, k) && Bit(b, k)) && !Bit(0, k)
    {
      BitAnd(a, b, k);
      BitZero(k);
    }
    if Disjoint(a, b, n) { SameBits(And(a, b), 0, n); }
  }

  lemma RequireBits(k: nat)
    requires k < 8
    ensures Bit(REQUIRE, k) == (k == 0 || k == 2 || k == 4 || k == 5) && Bit(0x08, k) == (k == 3)
  {
    assert Pow2(3) == 8;
    BitPow2(3, k);
    BitOnes(6, k);
    assert Bit(REQUIRE, 0) && Bit(REQUIRE / 2 / 2, 0) && Bit(REQUIRE / 2 / 2 / 2 / 2, 0);
    assert REQUIRE / 2 == 26 && REQUIRE / 2 / 2 == 13 && REQUIRE / 2 / 2 / 2 == 6 && REQUIRE / 2 / 2 / 2 / 2 == 3;
    assert REQUIRE / 2 / 2 / 2 / 2 / 2 == 1;
  }

  /** Exactly when the application is started, in terms of the causes recorded. */
  lemma WhatStarts(d: Device)
    ensures Main(d).running ==
            if d.rstfr == 0 then Resetting
            else if Has(d.rstfr, Watchdog) || !(Has(d.rstfr, PowerOn) || Has(d.rstfr, External) ||
                                                Has(d.rstfr, Software) || Has(d.rstfr, Updi)) then App
            else Session
  {
    assert Pow2(8) == 256;
    AndIsZero(d.rstfr, 0x08, 8);
    AndIsZero(d.rstfr, REQUIRE, 8);
    forall k: nat | k < 8
      ensures Bit(REQUIRE, k) == (k == 0 || k == 2 || k == 4 || k == 5) && Bit(0x08, k) == (k == 3)
    {
      RequireBits(k);
    }
    assert Disjoint(d.rstfr, 0x08, 8) == !Bit(d.rstfr, 3);
    assert Bit(REQUIRE, 0) && Bit(REQUIRE, 2) && Bit(REQUIRE, 4) && Bit(REQUIRE, 5);
  }

  lemma {:induction false} AndSelf(a: nat)
    ensures And(a, a) == a
  {
    if a != 0 { AndSelf(a / 2); }
  }

  /** What holds after every reset. */
  predicate Sound(d: Device) {
    match d.running
    case App => d.rstfr == 0 && d.gpior0 != 0 && !d.watchdog
    case Session => d.rstfr != 0 && !Has(d.rstfr, Watchdog) && d.watchdog
    case Resetting => d.rstfr == 0
  }

  lemma MainIsSound(d: Device)
    ensures Sound(Main(d))
    ensures Main(d).running == App ==> Main(d).gpior0 == d.rstfr != 0
  {
    WhatStarts(d);
    AndSelf(d.rstfr);
  }

  lemma AfterIsSound(d: Device, e: Event)
    requires Sound(d)
    ensures Sound(After(d, e))
  {
    match e
    case Reset(c) => MainIsSound(Device(Flagged(d.rstfr, c), 0, false, App));
    case RunsIn => if d.running == App { MainIsSound(d); }
  }

  /** Over every history: an application that runs was started with all reset flags cleared, a cause in GPIOR0 and the watchdog off; a
      bootloader session never starts with the watchdog flag, and always with the watchdog on. */
  lemma {:induction false} EveryHistoryIsSound(es: seq<Event>)
    ensures Sound(History(es))
    decreases |es|
  {
    if es == [] {
      MainIsSound(Device(Flag(PowerOn), 0, false, App));
    } else {
      EveryHistoryIsSound(es[..|es| - 1]);
      AfterIsSound(History(es[..|es| - 1]), es[|es| - 1]);
    }
  }

  /** What main leaves alone: all but the watchdog before a session, everything before a software reset. */
  lemma SessionKeepsTheFlags(d: Device)
    ensures Main(d).running == Session ==> Main(d) == Device(d.rstfr, d.gpior0, true, Session)
    ensures Main(d).running == Resetting ==> Main(d) == Device(d.rstfr, d.gpior0, d.watchdog, Resetting)
    ensures Main(d).running == App ==> Main(d) == Device(0, d.rstfr, false, App)
  {
    AndSelf(d.rstfr);
  }

  /** The causes of the resets since the application was started last. */
  function Causes(es: seq<Event>): set<Cause> {
    if es == [] then {PowerOn}
    else
      var front := es[..|es| - 1];
      var left := if History(front).running == App then {} else Causes(front);
      match es[|es| - 1]
      case Reset(c) => if c == PowerOn then {PowerOn} else left + {c}
      case RunsIn => left
  }

  predicate HasExactly(x: byte, causes: set<Cause>) { forall c :: Has(x, c) <==> c in causes }

  lemma FlaggedHas(rstfr: byte, c: Cause, causes: set<Cause>)
    requires HasExactly(rstfr, causes)
    ensures HasExactly(Flagged(rstfr, c), if c == PowerOn then {PowerOn} else causes + {c})
  {
    FlagIsRecorded(rstfr, c);
    if c == PowerOn { OnlyPowerOn(); }
  }

  lemma OnlyPowerOn()
    ensures HasExactly(1, {PowerOn})
  {
    assert Pow2(0) == 1;
    forall c: Cause
      ensures Bit(1, Place(c)) == (c == PowerOn)
    {
      BitPow2(0, Place(c));
    }
  }

  lemma NoCauses()
    ensures HasExactly(0, {})
  {
    forall c: Cause
      ensures !Has(0, c)
    {
      BitZero(Place(c));
    }
  }

  /** Over every history: the application is told exactly the causes since it was started last, and until then they stay
      in RSTFR. */
  lemma {:induction false} ApplicationIsToldTheCauses(es: seq<Event>)
    ensures var d := History(es);
            match d.running
            case App => HasExactly(d.gpior0, Causes(es)) && d.rstfr == 0
            case Session => HasExactly(d.rstfr, Causes(es))
            case Resetting => d.rstfr == 0 && Causes(es) == {}
    decreases |es|
  {
    NoCauses();
    if es == [] {
      OnlyPowerOn();
      Told(Device(Flag(PowerOn), 0, false, App), {PowerOn});
    } else {
      var front := es[..|es| - 1];
      var d := History(front);
      ApplicationIsToldTheCauses(front);
      EveryHistoryIsSound(front);
      var left := if d.running == App then {} else Causes(front);
      assert HasExactly(d.rstfr, left);
      match es[|es| - 1] {
        case Reset(c) =>
          FlaggedHas(d.rstfr, c, left);
          FlagIsRecorded(d.rstfr, c);
          Told(Device(Flagged(d.rstfr, c), 0, false, App), Causes(es));
        case RunsIn =>
      }
    }
  }

  lemma Told(d: Device, causes: set<Cause>)
    requires HasExactly(d.rstfr, causes) && d.rstfr != 0
    ensures var t := Main(d);
            match t.running
            case App => HasExactly(t.gpior0, causes) && t.rstfr == 0
            case Session => HasExactly(t.rstfr, causes)
            case Resetting => false
  {
    SessionKeepsTheFlags(d);
    WhatStarts(d);
  }

  lemma FlagIsRecorded(rstfr: byte, c: Cause)
    ensures Flagged(rstfr, c) != 0 && Has(Flagged(rstfr, c), c)
    ensures c != PowerOn ==> forall x :: Has(Flagged(rstfr, c), x) == (Has(rstfr, x) || x == c)
  {
    forall k: nat | k < 8
      ensures Bit(OrByte(rstfr, Flag(c)), k) == (Bit(rstfr, k) || Bit(Flag(c), k))
    {
      BitOr(rstfr, Flag(c), k);
    }
    assert Pow2(0) == 1 && Pow2(1) == 2 && Pow2(2) == 4 && Pow2(3) == 8 && Pow2(4) == 16 && Pow2(5) == 32;
    forall k: nat | k < 8
      ensures Bit(Flag(c), k) == (k == Place(c))
    {
      BitPow2(Place(c), k);
    }
    BitZero(0);
    BitZero(1);
    BitZero(2);
    BitZero(3);
    BitZero(4);
    BitZero(5);
  }

  /** The watchdog ends every session in the application, with the watchdog among the causes it is told. */
  lemma WatchdogStartsTheApplication(es: seq<Event>)
    requires History(es).running == Session
    ensures var d := After(History(es), Reset(Watchdog)); d.running == App && Has(d.gpior0, Watchdog) && d.rstfr == 0 && !d.watchdog
  {
    var d := History(es);
    FlagIsRecorded(d.rstfr, Watchdog);
    var d1 := Device(Flagged(d.rstfr, Watchdog), 0, false, App);
    WhatStarts(d1);
    MainIsSound(d1);
  }

  /** The reset that comes by itself when the host is silent. */
  function Silent(d: Device): Device {
    match d.running
    case App => d
    case Session => After(d, Reset(Watchdog))
    case Resetting => After(d, Reset(Software))
  }

  /** Without any traffic from a host the application runs after at most two further resets. */
  lemma TwoResetsAtMost(es: seq<Event>)
    ensures Silent(Silent(History(es))).running == App
  {
    var d := History(es);
    EveryHistoryIsSound(es);
    if d.running == Session {
      WatchdogStartsTheApplication(es);
    } else if d.running == Resetting {
      FlagIsRecorded(0, Software);
      var d1 := After(d, Reset(Software));
      forall x: Cause ensures !Has(0, x) {
        BitZero(Place(x));
      }
      WhatStarts(Device(Flagged(0, Software), 0, false, App));
      assert d1.running == Session && History(es + [Reset(Software)]) == d1 by {
        assert (es + [Reset(Software)])[..|es|] == es;
      }
      WatchdogStartsTheApplication(es + [Reset(Software)]);
    }
  }

  /** The registers that the beginning of main touches. */
  class Registers {
    var rstfr: byte
    var gpior0: byte
    var watchdog: bool
    var running: Running

    method Enter()
      modifies this
      ensures Device(rstfr, gpior0, watchdog, running) == Main(old(Device(rstfr, gpior0, watchdog, running)))
    {
      var ch := rstfr;
      if ch == 0 {
        running := Resetting;
        return;
      }
      if AndByte(ch, 0x08) != 0 || AndByte(ch, REQUIRE) == 0 {
        rstfr := Cleared(rstfr, ch);
        gpior0 := ch;
        watchdog := false;
        running := App;
        return;
      }
      watchdog := true;
      running := Session;
    }
  }
}
