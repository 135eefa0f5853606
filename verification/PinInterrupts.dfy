/** attachInterrupt and detachInterrupt, and what the dispatcher then calls. */
module PinInterrupts {
  import opened Bits
  import opened Avr
  import PinIsr
  import PinIsrEarly
  import PinLoop

  /** A pin is a bit of a port, or no pin at all. */
  datatype Place = Place(port: nat, bit: nat) | NotAPin

  type Pins = seq<Place>

  function PlaceOf(pins: Pins, pin: nat): Place { if pin < |pins| then pins[pin] else NotAPin }

  // Modes of attachInterrupt.
  const LOW: byte := 0
  const FALLING: byte := 2
  const RISING: byte := 3
  const CHANGE: byte := 4

  predicate IsMode(mode: byte) { mode == LOW || mode == FALLING || mode == RISING || mode == CHANGE }

  /** The input sense configuration, bits 0 to 2 of PINnCTRL. */
  function Isc(mode: byte): byte
    requires IsMode(mode)
  {
    if mode == CHANGE then 1 else if mode == RISING then 2 else if mode == FALLING then 3 else 5
  }

  /** ISC values for which the pin interrupts; 4 only disables the input. */
  predicate Interrupting(ctrl: byte) { var isc := AndByte(ctrl, 7); isc == 1 || isc == 2 || isc == 3 || isc == 5 }

  /** What the port does with an ISC value: whether a pin raises its flag as its level goes from `before` to `now`. */
  predicate Raises(isc: byte, before: bool, now: bool) {
    || (isc == 1 && before != now)
    || (isc == 2 && !before && now)
    || (isc == 3 && before && !now)
    || (isc == 5 && !now)
  }

  predicate PinRaises(ctrl: byte, before: bool, now: bool) { Raises(AndByte(ctrl, 7), before, now) }

  /** What a mode of attachInterrupt stands for. */
  predicate Senses(ctrl: byte, mode: byte) {
    && (mode == CHANGE ==> forall before, now :: PinRaises(ctrl, before, now) == (before != now))
    && (mode == RISING ==> forall before, now :: PinRaises(ctrl, before, now) == (!before && now))
    && (mode == FALLING ==> forall before, now :: PinRaises(ctrl, before, now) == (before && !now))
    && (mode == LOW ==> forall before, now :: PinRaises(ctrl, before, now) == !now)
  }

  lemma ModeSelects(ctrl: byte, mode: byte)
    requires IsMode(mode)
    ensures Senses(WithIsc(ctrl, Isc(mode)), mode)
  {
    IscReplaced(ctrl, Isc(mode));
    hide WithIsc, AndByte;
  }

  /** A pin is said to interrupt exactly if it raises its flag on some levels. */
  lemma InterruptingExactly(ctrl: byte)
    ensures Interrupting(ctrl) <==> exists before, now :: PinRaises(ctrl, before, now)
  {
    hide AndByte;
    var isc := AndByte(ctrl, 7);
    assert PinRaises(ctrl, false, true) <==> isc == 1 || isc == 2;
    assert PinRaises(ctrl, true, false) <==> isc == 1 || isc == 3 || isc == 5;
  }

  function WithIsc(ctrl: byte, isc: byte): byte { OrByte(AndByte(ctrl, 0xF8), isc) }

  lemma IscBits(ctrl: byte, isc: byte, k: nat)
    requires isc < 8 && k < 8
    ensures Bit(WithIsc(ctrl, isc), k) == if k < 3 then Bit(isc, k) else Bit(ctrl, k)
  {
    BitOr(AndByte(ctrl, 0xF8), isc, k);
    BitAnd(ctrl, 0xF8, k);
    HighFive(k);
    if k >= 3 { SmallBits(isc, k); }
  }

  lemma HighFive(k: nat)
    requires k < 8
    ensures Bit(0xF8, k) == (k >= 3)
  {
    assert Byte([false, false, false, true, true, true, true, true]) == 0xF8;
    BitOfByte([false, false, false, true, true, true, true, true], k);
  }

  lemma SmallBits(x: nat, k: nat)
    requires x < 8 && k >= 3
    ensures !Bit(x, k)
  {
    assert Pow2(3) == 8;
    AndMask(x, 3);
    DivUnique(x, 8, 0, x);
    BitAnd(x, 7, k);
    BitOnes(3, k);
  }

  /** Only the ISC field is replaced. */
  lemma IscReplaced(ctrl: byte, isc: byte)
    requires isc < 8
    ensures AndByte(WithIsc(ctrl, isc), 7) == isc && AndByte(WithIsc(ctrl, isc), 0xF8) == AndByte(ctrl, 0xF8)
  {
    var x := WithIsc(ctrl, isc);
    assert Pow2(8) == 256 && Pow2(3) == 8;
    forall k: nat | k < 8
      ensures Bit(AndByte(x, 7), k) == Bit(isc, k)
      ensures Bit(AndByte(x, 0xF8), k) == Bit(AndByte(ctrl, 0xF8), k)
    {
      IscBits(ctrl, isc, k);
      BitAnd(x, 7, k);
      BitOnes(3, k);
      BitAnd(x, 0xF8, k);
      BitAnd(ctrl, 0xF8, k);
      HighFive(k);
      if k >= 3 { SmallBits(isc, k); }
    }
    SameBits(AndByte(x, 7), isc, 8);
    SameBits(AndByte(x, 0xF8), AndByte(ctrl, 0xF8), 8);
  }

  // The history, and what it means for a place.

  datatype Event = Enable(port: nat) | Attach(pin: nat, f: word, mode: byte) | Detach(pin: nat)

  predicate Enabled(es: seq<Event>, port: nat) { Enable(port) in es }

  /** An attach that takes effect: a pin of an enabled port, a mode that exists, a function. */
  predicate Effective(pins: Pins, es: seq<Event>, e: Event) {
    && e.Attach? && PlaceOf(pins, e.pin).Place? && IsMode(e.mode) && e.f != 0 && Enabled(es, PlaceOf(pins, e.pin).port)
  }

  /** The function attached most recently to a place and not detached since, or 0. */
  function Current(pins: Pins, es: seq<Event>, q: Place): word {
    if es == [] then 0
    else
      var (before, e) := (es[..|es| - 1], es[|es| - 1]);
      if Effective(pins, before, e) && PlaceOf(pins, e.pin) == q then e.f
      else if e.Detach? && PlaceOf(pins, e.pin) == q then 0
      else Current(pins, before, q)
  }

  /** All places are bits of ports that exist. */
  predicate ValidPins(pins: Pins, ports: nat) {
    forall p :: p in pins && p.Place? ==> p.port < ports && p.bit < 8
  }

  predicate Exists<T>(rows: seq<seq<T>>, q: Place) { q.Place? && q.port < |rows| && q.bit < |rows[q.port]| }

  function Put<T>(rows: seq<seq<T>>, q: Place, x: T): seq<seq<T>>
    requires Exists(rows, q)
  {
    var row: seq<T> := rows[q.port][q.bit := x];
    rows[q.port := row]
  }

  function Get<T>(rows: seq<seq<T>>, q: Place): T
    requires Exists(rows, q)
  {
    rows[q.port][q.bit]
  }

  /** An entry between its two byte stores; which byte goes first is up to the compiler. */
  function HalfStored(lowFirst: bool, old_: word, f: word): word {
    if lowFirst then Word(Hi(old_), Lo(f)) else Word(Hi(f), Lo(old_))
  }

  /** The other byte stored as well. */
  function Completed(lowFirst: bool, half: word, f: word): word {
    if lowFirst then Word(Hi(f), Lo(half)) else Word(Hi(half), Lo(f))
  }

  lemma BothStored(lowFirst: bool, old_: word, f: word)
    ensures Completed(lowFirst, HalfStored(lowFirst, old_, f), f) == f
  {
    WordSplits(f);
    WordSplits(HalfStored(lowFirst, old_, f));
  }

  /** It is the old function or the new one exactly when these share a byte: a pin that interrupts between the stores
      may otherwise call an address that is neither. */
  lemma MixedExactly(lowFirst: bool, old_: word, f: word)
    ensures HalfStored(lowFirst, old_, f) in {old_, f} <==> Lo(old_) == Lo(f) || Hi(old_) == Hi(f)
  {
    WordSplits(old_);
    WordSplits(f);
    WordSplits(HalfStored(lowFirst, old_, f));
  }

  lemma WordSplits(x: word)
    ensures x == Word(Hi(x), Lo(x))
    ensures forall h: byte, l: byte :: Word(h, l) == x ==> h == Hi(x) && l == Lo(x)
  {
  }

  /** detachInterrupt's clearing of the pending flag: it computes 16 * port + 3 for the address of VPORTx.INTFLAGS. */
  function FlagCleared(io: Io, port: nat, bit: nat): Io
    requires port < 7 && bit < 8
  {
    PowByte(bit);
    IoWrite(io, 16 * port + 3, Pow2(bit))
  }

  lemma PowByte(bit: nat)
    requires bit < 8
    ensures Pow2(bit) < 256
  {
    assert Pow2(0) == 1 && Pow2(1) == 2 && Pow2(2) == 4 && Pow2(3) == 8;
    assert Pow2(4) == 16 && Pow2(5) == 32 && Pow2(6) == 64 && Pow2(7) == 128;
  }

  /** The pending flag, and no other one, is cleared exactly on port A; that of another port survives the detach. */
  lemma FlagClearedExactly(io: Io, port: byte, bit: nat)
    requires port < 7 && bit < 8
    ensures var a := PinLoop.FlagsAt(PinLoop.Port(0x1000, port));
            forall k: nat :: k < 8 ==> Bit(FlagCleared(io, port, bit).regs[a], k) == (Bit(io.regs[a], k) && !(port == 0 && k == bit))
  {
    PowByte(bit);
    forall k: nat | k < 8
      ensures Bit(WrittenFlags(io.regs[3], Pow2(bit)), k) == (Bit(io.regs[3], k) && k != bit)
    {
      BitMinusAnd(io.regs[3], Pow2(bit), k);
      BitPow2(bit, k);
    }
    hide And, Bit, Pow2, WrittenFlags;
    WhereItGoes(io, port, Pow2(bit));
  }

  lemma WhereItGoes(io: Io, port: byte, m: byte)
    requires port < 7
    ensures var a := PinLoop.FlagsAt(PinLoop.Port(0x1000, port));
            IoWrite(io, 16 * port + 3, m).regs[a] == if port == 0 then WrittenFlags(io.regs[3], m) else io.regs[a]
  {
  }

  /** After e a place has the function f, or none if f is 0. */
  predicate Gives(pins: Pins, es: seq<Event>, e: Event, q: Place, f: word) {
    && q.Place? && !e.Enable? && PlaceOf(pins, e.pin) == q
    && if e.Attach? then Effective(pins, es, e) && e.f == f else f == 0
  }

  lemma CurrentAfter(pins: Pins, es: seq<Event>, e: Event, q: Place, f: word, r: Place)
    requires Gives(pins, es, e, q, f)
    ensures Current(pins, es + [e], r) == if r == q then f else Current(pins, es, r)
  {
    assert (es + [e])[..|es|] == es;
  }

  lemma Given(pins: Pins, es: seq<Event>, e: Event, q: Place, f: word)
    requires Gives(pins, es, e, q, f)
    ensures forall p :: Enabled(es + [e], p) == Enabled(es, p)
    ensures forall p, b :: Current(pins, es + [e], Place(p, b)) == if Place(p, b) == q then f else Current(pins, es, Place(p, b))
  {
    forall p, b
      ensures Current(pins, es + [e], Place(p, b)) == if Place(p, b) == q then f else Current(pins, es, Place(p, b))
    {
      CurrentAfter(pins, es, e, q, f, Place(p, b));
    }
  }

  class Dispatcher {
    const pins: Pins
    const lowFirst: bool
    /** intFunc[port] != NULL. */
    var enabled: seq<bool>
    /** intFunc_A, intFunc_B, ... */
    var table: seq<seq<word>>
    /** PINnCTRL of every port. */
    var ctrl: seq<seq<byte>>
    /** The low I/O space with the VPORTs. */
    var io: Io
    ghost const first: seq<seq<byte>>
    ghost var events: seq<Event>

    ghost predicate Shape()
      reads this
    {
      && |table| == |enabled| && |ctrl| == |enabled| && |first| == |enabled| <= 7 && ValidPins(pins, |enabled|)
      && (forall p :: 0 <= p < |enabled| ==> |table[p]| == 8 && |ctrl[p]| == 8 && |first[p]| == 8)
    }

    /** A pin that interrupts has a function. */
    ghost predicate NoCallToNull()
      requires Shape()
      reads this
    {
      forall p, b :: 0 <= p < |enabled| && 0 <= b < 8 && Interrupting(ctrl[p][b]) ==> table[p][b] != 0
    }

    /** As valid as it can be while the entry of q is x. */
    ghost predicate ValidBut(q: Place, x: word)
      reads this
    {
      && Shape() && Exists(table, q) && Get(table, q) == x
      && (forall p, b :: 0 <= p < |enabled| && 0 <= b < 8 && Interrupting(ctrl[p][b]) && Place(p, b) != q ==> table[p][b] != 0)
      && (forall p :: 0 <= p < |enabled| ==> enabled[p] == Enabled(events, p))
      && (forall p, b :: 0 <= p < |enabled| && 0 <= b < 8 && Place(p, b) != q ==> table[p][b] == Current(pins, events, Place(p, b)))
      && (forall p, b :: 0 <= p < |enabled| && 0 <= b < 8 ==> AndByte(ctrl[p][b], 0xF8) == AndByte(first[p][b], 0xF8))
    }

    ghost predicate Valid()
      reads this
    {
      && Shape() && NoCallToNull()
      && (forall p :: 0 <= p < |enabled| ==> enabled[p] == Enabled(events, p))
      && (forall p, b :: 0 <= p < |enabled| && 0 <= b < 8 ==> table[p][b] == Current(pins, events, Place(p, b)))
      && (forall p, b :: 0 <= p < |enabled| && 0 <= b < 8 ==> AndByte(ctrl[p][b], 0xF8) == AndByte(first[p][b], 0xF8))
    }

    constructor (pins: Pins, ctrl: seq<seq<byte>>, io: Io, lowFirst: bool)
      requires |ctrl| <= 7 && ValidPins(pins, |ctrl|) && (forall p :: 0 <= p < |ctrl| ==> |ctrl[p]| == 8)
      requires forall p, b :: 0 <= p < |ctrl| && 0 <= b < 8 ==> !Interrupting(ctrl[p][b])
      ensures Valid() && events == [] && this.ctrl == ctrl == first && this.io == io
    {
      this.pins, this.ctrl, this.io, this.lowFirst, first, events := pins, ctrl, io, lowFirst, ctrl, [];
      enabled := seq(|ctrl|, _ => false);
      table := seq(|ctrl|, _ => seq(8, _ => 0));
    }

    /** attachPortAEnable and its like. */
    method EnablePort(port: nat)
      requires Valid() && port < |enabled|
      modifies this`enabled, this`events
      ensures Valid() && events == old(events) + [Enable(port)]
    {
      enabled := enabled[port := true];
      events := events + [Enable(port)];
      assert events[..|events| - 1] == old(events);
    }

    /** A call without effect. */
    ghost method Nothing(e: Event)
      requires Valid() && !e.Enable? && !Effective(pins, events, e) && (e.Detach? ==> PlaceOf(pins, e.pin).NotAPin?)
      modifies this`events
      ensures Valid() && events == old(events) + [e]
    {
      events := events + [e];
      assert events[..|events| - 1] == old(events);
    }

    /** The first of the two byte stores: until the other one the entry is a mixture. */
    method StoreOneByte(q: Place, f: word)
      requires Valid() && Exists(table, q)
      modifies this`table
      ensures Exists(old(table), q) && ValidBut(q, HalfStored(lowFirst, Get(old(table), q), f))
    {
      var x := Get(table, q);
      table := Put(table, q, if lowFirst then Word(Hi(x), Lo(f)) else Word(Hi(f), Lo(x)));
    }

    /** The second one; with it the function is attached, or no function is. */
    method StoreOtherByte(q: Place, f: word, ghost x: word, ghost e: Event)
      requires ValidBut(q, HalfStored(lowFirst, x, f)) && Gives(pins, events, e, q, f)
      requires f == 0 ==> Exists(ctrl, q) && !Interrupting(Get(ctrl, q))
      modifies this`table, this`events
      ensures Valid() && events == old(events) + [e] && Exists(table, q) && Get(table, q) == f
    {
      hide AndByte, Interrupting, HalfStored, Completed, Current, Effective;
      BothStored(lowFirst, x, f);
      Given(pins, events, e, q, f);
      table := Put(table, q, Completed(lowFirst, Get(table, q), f));
      events := events + [e];
    }

    /** `intFunc[port][bitpos] = userFunc`, with interrupts on. */
    method SetEntry(q: Place, f: word, ghost e: Event)
      requires Valid() && q.Place? && Effective(pins, events, e) && PlaceOf(pins, e.pin) == q && e.f == f
      modifies this`table, this`events
      ensures Valid() && events == old(events) + [e] && Exists(table, q) && Get(table, q) == f != 0
    {
      hide AndByte, Interrupting, HalfStored, Current;
      ghost var x := Get(table, q);
      StoreOneByte(q, f);
      StoreOtherByte(q, f, x, e);
    }

    method SetIsc(q: Place, isc: byte)
      requires Valid() && Exists(table, q) && Get(table, q) != 0 && isc < 8
      modifies this`ctrl
      ensures Valid() && Exists(old(ctrl), q) && ctrl == Put(old(ctrl), q, WithIsc(Get(old(ctrl), q), isc))
    {
      IscReplaced(Get(ctrl, q), isc);
      var settings := AndByte(Get(ctrl, q), 0xF8);
      ctrl := Put(ctrl, q, OrByte(settings, isc));
    }

    method SenseOff(q: Place)
      requires Valid() && Exists(table, q)
      modifies this`ctrl
      ensures Valid() && Exists(old(ctrl), q) && ctrl == Put(old(ctrl), q, AndByte(Get(old(ctrl), q), 0xF8))
      ensures Exists(ctrl, q) && !Interrupting(Get(ctrl, q))
    {
      IscReplaced(Get(ctrl, q), 0);
      ctrl := Put(ctrl, q, AndByte(Get(ctrl, q), 0xF8));
    }

    /** The pending flag, or what is at the address computed for it. */
    method ClearFlag(q: Place)
      requires Valid() && Exists(ctrl, q)
      modifies this`io
      ensures q.port < 7 && q.bit < 8 && io == FlagCleared(old(io), q.port, q.bit)
    {
      PowByte(q.bit);
      io := IoWrite(io, 16 * q.port + 3, Pow2(q.bit));
    }

    /** `intFunc[port][bitpos] = 0`, in two byte stores as well. */
    method ClearEntry(q: Place, ghost pin: nat)
      requires Valid() && q == PlaceOf(pins, pin) && Exists(ctrl, q) && !Interrupting(Get(ctrl, q))
      modifies this`table, this`events
      ensures Valid() && events == old(events) + [Detach(pin)] && Exists(table, q) && Get(table, q) == 0
    {
      hide AndByte, HalfStored, Current, Effective;
      ghost var x := Get(table, q);
      StoreOneByte(q, 0);
      StoreOtherByte(q, 0, x, Detach(pin));
    }

    /** attachInterrupt: the entry first, then the sense configuration. */
    method AttachInterrupt(pin: nat, f: word, mode: byte)
      requires Valid()
      modifies this`table, this`ctrl, this`events
      ensures Valid() && events == old(events) + [Attach(pin, f, mode)]
      ensures if Effective(pins, old(events), Attach(pin, f, mode)) then
                var q := PlaceOf(pins, pin);
                && Exists(old(ctrl), q) && ctrl == Put(old(ctrl), q, WithIsc(Get(old(ctrl), q), Isc(mode)))
                && Exists(ctrl, q) && Senses(Get(ctrl, q), mode) && AndByte(Get(ctrl, q), 0xF8) == AndByte(Get(old(ctrl), q), 0xF8)
                && Exists(table, q) && Get(table, q) == f
              else ctrl == old(ctrl) && table == old(table)
    {
      var q := PlaceOf(pins, pin);
      if q.NotAPin? || !IsMode(mode) {
        Nothing(Attach(pin, f, mode));
        return;
      }
      if enabled[q.port] && f != 0 {
        SetEntry(q, f, Attach(pin, f, mode));
        ModeSelects(Get(ctrl, q), mode);
        IscReplaced(Get(ctrl, q), Isc(mode));
        SetIsc(q, Isc(mode));
      } else {
        Nothing(Attach(pin, f, mode));
      }
    }

    /** detachInterrupt: the sense configuration first, then the flag, the entry last. */
    method DetachInterrupt(pin: nat)
      requires Valid() && (PlaceOf(pins, pin).Place? ==> enabled[PlaceOf(pins, pin).port])
      modifies this`table, this`ctrl, this`io, this`events
      ensures Valid() && events == old(events) + [Detach(pin)]
      ensures var q := PlaceOf(pins, pin);
              if q.Place? then
                && Exists(old(ctrl), q) && ctrl == Put(old(ctrl), q, AndByte(Get(old(ctrl), q), 0xF8))
                && q.port < 7 && q.bit < 8 && io == FlagCleared(old(io), q.port, q.bit)
              else ctrl == old(ctrl) && io == old(io)
    {
      var q := PlaceOf(pins, pin);
      if q.NotAPin? {
        Nothing(Detach(pin));
        return;
      }
      SenseOff(q);
      ClearFlag(q);
      ClearEntry(q, pin);
    }
  }

  // What is called.

  /** For the set flags from bit i on: the functions that are attached, in ascending order of pins. */
  function AttachedTo(pins: Pins, es: seq<Event>, port: nat, flags: byte, i: nat): seq<word>
    requires i <= 8
    decreases 8 - i
  {
    if i == 8 then []
    else
      var f := Current(pins, es, Place(port, i));
      (if Bit(flags, i) && f != 0 then [f] else []) + AttachedTo(pins, es, port, flags, i + 1)
  }

  /** Memory holds the table of a port as the history left it. */
  ghost predicate HoldsTable(w: World, table: word, pins: Pins, es: seq<Event>, port: nat)
    requires table + 16 < 0x1_0000
  {
    forall i :: 0 <= i < 8 ==> PinLoop.WordAt(w, table + 2 * i) == Current(pins, es, Place(port, i))
  }

  lemma {:induction false} SetHandlersAreAttached(flags: byte, table: word, w: World, pins: Pins, es: seq<Event>, port: nat, i: nat)
    requires table + 16 < 0x1_0000 && i <= 8 && HoldsTable(w, table, pins, es, port)
    ensures PinLoop.SetHandlers(flags, table, w, i) == AttachedTo(pins, es, port, flags, i)
    decreases 8 - i
  {
    if i < 8 { SetHandlersAreAttached(flags, table, w, pins, es, port, i + 1); }
  }

  /** Dispatch, in assembly as in C, calls for the set flags exactly the functions attached last and not detached since. */
  lemma DispatchCallsTheAttached(q: PinLoop.Port, effect: PinLoop.Effect, w: World, pins: Pins, es: seq<Event>)
    requires PinLoop.Enabled(q, w) && PinLoop.LeavesTable(effect, PinLoop.Table(q, w))
    requires HoldsTable(w, PinLoop.Table(q, w), pins, es, q.number)
    ensures PinIsr.PortInterruptHandler(q, effect, PinLoop.Outcome(w, [])).called ==
            AttachedTo(pins, es, q.number, Peek(w, PinLoop.FlagsAt(q)), 0)
  {
    var flags, table := Peek(w, PinLoop.FlagsAt(q)), PinLoop.Table(q, w);
    PinLoop.CallsAreTheSetHandlers(flags, table, effect, 0, PinLoop.Outcome(w, []));
    SetHandlersAreAttached(flags, table, w, pins, es, q.number, 0);
    assert [] + PinLoop.SetHandlers(flags, table, w, 0) == PinLoop.SetHandlers(flags, table, w, 0);
  }

  /** An entry that is not null is called whenever its flag is set, whatever it holds: so is a mixture. */
  lemma {:induction false} EntryIsCalled(flags: byte, table: word, w: World, i: nat, k: nat)
    requires table + 16 < 0x1_0000 && i <= k < 8 && Bit(flags, k) && PinLoop.WordAt(w, table + 2 * k) != 0
    ensures PinLoop.WordAt(w, table + 2 * k) in PinLoop.SetHandlers(flags, table, w, i)
    decreases 8 - i
  {
    if i < k { EntryIsCalled(flags, table, w, i + 1, k); }
  }

  /** The same of the assembly: entered with a table that the history left, it reaches its end having called just these. */
  lemma AssemblyCallsTheAttached(p: Program, q: PinLoop.Port, big: bool, effect: PinLoop.Effect, m: Machine, pins: Pins, es: seq<Event>)
    requires q.number < 7 && p.pieces == PinIsr.Pieces(q, big) && PinLoop.KeepsAbi(p.call, effect)
    requires m.pc == At(0, 0) && m.called == [] && PinLoop.Enabled(q, m.cpu.w)
    requires PinLoop.LeavesTable(effect, PinLoop.Table(q, m.cpu.w)) && HoldsTable(m.cpu.w, PinLoop.Table(q, m.cpu.w), pins, es, q.number)
    ensures exists m' :: Comes(p, m, PinLoop.IsrLoads(q, m.cpu.w), m') && m'.pc == Returned &&
                         m'.called == AttachedTo(pins, es, q.number, Peek(m.cpu.w, PinLoop.FlagsAt(q)), 0)
  {
    DispatchCallsTheAttached(q, effect, m.cpu.w, pins, es);
    PinIsr.AttachedIsr(p, q, big, effect, m);
  }

  /** The form that clears the flags first calls the same. */
  lemma EarlyAssemblyCallsTheAttached(p: Program, q: PinLoop.Port, big: bool, effect: PinLoop.Effect, m: Machine, pins: Pins, es: seq<Event>)
    requires q.number < 7 && p.pieces == PinIsrEarly.Pieces(q, big) && PinLoop.KeepsAbi(p.call, effect)
    requires m.pc == At(0, 0) && m.called == [] && PinLoop.Enabled(q, m.cpu.w)
    requires PinLoop.LeavesTable(effect, PinLoop.Table(q, m.cpu.w)) && HoldsTable(m.cpu.w, PinLoop.Table(q, m.cpu.w), pins, es, q.number)
    ensures exists m' :: Comes(p, m, PinLoop.IsrLoads(q, m.cpu.w), m') && m'.pc == Returned &&
                         m'.called == AttachedTo(pins, es, q.number, Peek(m.cpu.w, PinLoop.FlagsAt(q)), 0)
  {
    var flags, table := Peek(m.cpu.w, PinLoop.FlagsAt(q)), PinLoop.Table(q, m.cpu.w);
    var w := Poke(m.cpu.w, PinLoop.FlagsAt(q), flags);
    PinLoop.CallsAreTheSetHandlers(flags, table, effect, 0, PinLoop.Outcome(w, []));
    SetHandlersAreAttached(flags, table, w, pins, es, q.number, 0);
    assert [] + PinLoop.SetHandlers(flags, table, w, 0) == PinLoop.SetHandlers(flags, table, w, 0);
    PinIsrEarly.AttachedIsr(p, q, big, effect, m);
  }

  /** A function that was detached from its only pin, or replaced there, is not called for it. */
  lemma {:induction false} DetachedIsNotCalled(pins: Pins, es: seq<Event>, later: seq<Event>, pin: nat, q: Place)
    requires PlaceOf(pins, pin) == q && q.Place?
    requires forall e :: e in later ==> !(e.Attach? && PlaceOf(pins, e.pin) == q)
    ensures Current(pins, es + [Detach(pin)] + later, q) == 0
    decreases |later|
  {
    var all := es + [Detach(pin)] + later;
    if later == [] {
      assert all[|all| - 1] == Detach(pin);
    } else {
      var front := later[..|later| - 1];
      assert all[..|all| - 1] == es + [Detach(pin)] + front && all[|all| - 1] == later[|later| - 1];
      DetachedIsNotCalled(pins, es, front, pin, q);
    }
  }
}
