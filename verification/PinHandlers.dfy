/** Handlers that attach and detach themselves: what a dispatch calls while the table changes under it. */
module PinHandlers {
  import opened Bits
  import opened Avr
  import opened PinInterrupts
  import PinIsr
  import PinIsrEarly
  import PinLoop

  /** The calls of attachInterrupt and detachInterrupt that a handler makes. */
  type Acts = (word, World) -> seq<Event>

  /** All that handlers do to the table of this port they do by those calls. */
  ghost predicate ActsOnTable(effect: PinLoop.Effect, acts: Acts, table: word, pins: Pins, port: nat)
    requires table + 16 < 0x1_0000
  {
    forall f: word, w: World, es: seq<Event> :: HoldsTable(w, table, pins, es, port) ==>
      HoldsTable(effect(f, w), table, pins, es + acts(f, w), port)
  }

  /** The functions called for the set flags from bit i on: for each the one attached as its turn comes. */
  function CallsFrom(pins: Pins, es: seq<Event>, effect: PinLoop.Effect, acts: Acts, w: World, port: nat, flags: byte, i: nat): seq<word>
    requires i <= 8
    decreases 8 - i
  {
    if i == 8 then []
    else
      var f := Current(pins, es, Place(port, i));
      if Bit(flags, i) && f != 0 then [f] + CallsFrom(pins, es + acts(f, w), effect, acts, effect(f, w), port, flags, i + 1)
      else CallsFrom(pins, es, effect, acts, w, port, flags, i + 1)
  }

  /** The history with what they did. */
  function HistoryFrom(pins: Pins, es: seq<Event>, effect: PinLoop.Effect, acts: Acts, w: World, port: nat, flags: byte, i: nat): seq<Event>
    requires i <= 8
    decreases 8 - i
  {
    if i == 8 then es
    else
      var f := Current(pins, es, Place(port, i));
      if Bit(flags, i) && f != 0 then HistoryFrom(pins, es + acts(f, w), effect, acts, effect(f, w), port, flags, i + 1)
      else HistoryFrom(pins, es, effect, acts, w, port, flags, i + 1)
  }

  /** The loop follows the history as it grows: every entry is looked up at its turn. */
  lemma {:induction false} LoopFollows(flags: byte, table: word, effect: PinLoop.Effect, acts: Acts, pins: Pins, es: seq<Event>, port: nat,
                                       i: nat, x: PinLoop.Outcome)
    requires table + 16 < 0x1_0000 && i <= 8 && ActsOnTable(effect, acts, table, pins, port) && HoldsTable(x.w, table, pins, es, port)
    ensures var y := PinLoop.HandleFrom(flags, table, effect, i, x);
            && y.called == x.called + CallsFrom(pins, es, effect, acts, x.w, port, flags, i)
            && HoldsTable(y.w, table, pins, HistoryFrom(pins, es, effect, acts, x.w, port, flags, i), port)
    decreases 8 - i
  {
    if i == 8 {
      assert x.called + [] == x.called;
    } else {
      var f := PinLoop.WordAt(x.w, table + 2 * i);
      assert f == Current(pins, es, Place(port, i));
      hide HoldsTable, Bit, Current, PinLoop.WordAt;
      if Bit(flags, i) && f != 0 {
        var y := PinLoop.Outcome(effect(f, x.w), x.called + [f]);
        LoopFollows(flags, table, effect, acts, pins, es + acts(f, x.w), port, i + 1, y);
        PinLoop.JoinCalls(x.called, f, CallsFrom(pins, es + acts(f, x.w), effect, acts, y.w, port, flags, i + 1));
      } else {
        LoopFollows(flags, table, effect, acts, pins, es, port, i + 1, x);
      }
    }
  }

  /** Writing a flag register does not touch the table. */
  lemma TableStays(q: PinLoop.Port, w: World, a: word, v: byte, table: word, pins: Pins, es: seq<Event>)
    requires table + 16 < 0x1_0000 && IsIo(a) && HoldsTable(w, table, pins, es, q.number)
    ensures HoldsTable(Poke(w, a, v), table, pins, es, q.number)
  {
    hide Current;
    assert Poke(w, a, v).mem == w.mem;
  }

  /** A whole dispatch from the vector in assembly, for handlers that attach and detach as they like: for each set flag the
      function attached at its turn is called, and the table is left as the whole history says. */
  lemma AssemblyFollows(p: Program, q: PinLoop.Port, big: bool, effect: PinLoop.Effect, acts: Acts, m: Machine, pins: Pins, es: seq<Event>)
    requires q.number < 7 && p.pieces == PinIsr.Pieces(q, big) && PinLoop.KeepsAbi(p.call, effect)
    requires m.pc == At(0, 0) && m.called == [] && PinLoop.Enabled(q, m.cpu.w)
    requires var table := PinLoop.Table(q, m.cpu.w);
             ActsOnTable(effect, acts, table, pins, q.number) && HoldsTable(m.cpu.w, table, pins, es, q.number)
    ensures var w, flags, table := m.cpu.w, Peek(m.cpu.w, PinLoop.FlagsAt(q)), PinLoop.Table(q, m.cpu.w);
            exists m' :: Comes(p, m, PinLoop.IsrLoads(q, w), m') && m'.pc == Returned
                         && m'.called == CallsFrom(pins, es, effect, acts, w, q.number, flags, 0)
                         && HoldsTable(m'.cpu.w, table, pins, HistoryFrom(pins, es, effect, acts, w, q.number, flags, 0), q.number)
  {
    var w, flags, table := m.cpu.w, Peek(m.cpu.w, PinLoop.FlagsAt(q)), PinLoop.Table(q, m.cpu.w);
    hide HoldsTable, ActsOnTable, PinIsr.Pieces, Comes, PinLoop.KeepsAbi, CallsFrom, HistoryFrom;
    PinIsr.AttachedIsr(p, q, big, effect, m);
    LoopFollows(flags, table, effect, acts, pins, es, q.number, 0, PinLoop.Outcome(w, []));
    var y := PinLoop.HandleFrom(flags, table, effect, 0, PinLoop.Outcome(w, []));
    TableStays(q, y.w, PinLoop.FlagsAt(q), flags, table, pins, HistoryFrom(pins, es, effect, acts, w, q.number, flags, 0));
    var calls := CallsFrom(pins, es, effect, acts, w, q.number, flags, 0);
    assert [] + calls == calls;
  }

  /** The same of the form that clears the flags first; handlers see the flags cleared. */
  lemma EarlyAssemblyFollows(p: Program, q: PinLoop.Port, big: bool, effect: PinLoop.Effect, acts: Acts, m: Machine, pins: Pins, es: seq<Event>)
    requires q.number < 7 && p.pieces == PinIsrEarly.Pieces(q, big) && PinLoop.KeepsAbi(p.call, effect)
    requires m.pc == At(0, 0) && m.called == [] && PinLoop.Enabled(q, m.cpu.w)
    requires var table := PinLoop.Table(q, m.cpu.w);
             ActsOnTable(effect, acts, table, pins, q.number) && HoldsTable(m.cpu.w, table, pins, es, q.number)
    ensures var flags, table := Peek(m.cpu.w, PinLoop.FlagsAt(q)), PinLoop.Table(q, m.cpu.w);
            var w := Poke(m.cpu.w, PinLoop.FlagsAt(q), flags);
            exists m' :: Comes(p, m, PinLoop.IsrLoads(q, m.cpu.w), m') && m'.pc == Returned
                         && m'.called == CallsFrom(pins, es, effect, acts, w, q.number, flags, 0)
                         && HoldsTable(m'.cpu.w, table, pins, HistoryFrom(pins, es, effect, acts, w, q.number, flags, 0), q.number)
  {
    var flags, table := Peek(m.cpu.w, PinLoop.FlagsAt(q)), PinLoop.Table(q, m.cpu.w);
    var w := Poke(m.cpu.w, PinLoop.FlagsAt(q), flags);
    hide HoldsTable, ActsOnTable, PinIsrEarly.Pieces, Comes, PinLoop.KeepsAbi, CallsFrom, HistoryFrom;
    PinIsrEarly.AttachedIsr(p, q, big, effect, m);
    TableStays(q, m.cpu.w, PinLoop.FlagsAt(q), flags, table, pins, es);
    LoopFollows(flags, table, effect, acts, pins, es, q.number, 0, PinLoop.Outcome(w, []));
    var y := PinLoop.HandleFrom(flags, table, effect, 0, PinLoop.Outcome(w, []));
    TableStays(q, y.w, PinIsrEarly.RAMPZ, m.cpu.w.io.regs[PinIsrEarly.RAMPZ], table, pins, HistoryFrom(pins, es, effect, acts, w, q.number, flags, 0));
    var calls := CallsFrom(pins, es, effect, acts, w, q.number, flags, 0);
    assert [] + calls == calls;
  }

  /** Handlers that leave the table alone: the functions attached as the dispatch begins. */
  lemma {:induction false} NoActs(pins: Pins, es: seq<Event>, effect: PinLoop.Effect, acts: Acts, w: World, port: nat, flags: byte, i: nat)
    requires i <= 8 && forall f, u :: acts(f, u) == []
    ensures CallsFrom(pins, es, effect, acts, w, port, flags, i) == AttachedTo(pins, es, port, flags, i)
    ensures HistoryFrom(pins, es, effect, acts, w, port, flags, i) == es
    decreases 8 - i
  {
    if i < 8 {
      var f := Current(pins, es, Place(port, i));
      assert es + [] == es;
      NoActs(pins, es, effect, acts, effect(f, w), port, flags, i + 1);
      NoActs(pins, es, effect, acts, w, port, flags, i + 1);
    }
  }

  /** No flag from bit i on is set. */
  predicate NoneFrom(flags: byte, i: nat) { forall k :: i <= k < 8 ==> !Bit(flags, k) }

  lemma {:induction false} NothingToCall(pins: Pins, es: seq<Event>, effect: PinLoop.Effect, acts: Acts, w: World, port: nat, flags: byte, i: nat)
    requires i <= 8 && NoneFrom(flags, i)
    ensures CallsFrom(pins, es, effect, acts, w, port, flags, i) == [] && HistoryFrom(pins, es, effect, acts, w, port, flags, i) == es
    decreases 8 - i
  {
    if i < 8 { NothingToCall(pins, es, effect, acts, w, port, flags, i + 1); }
  }

  predicate OnlyBit(flags: byte, b: nat) { b < 8 && forall k :: 0 <= k < 8 ==> Bit(flags, k) == (k == b) }

  lemma {:induction false} OnlyOne(pins: Pins, es: seq<Event>, effect: PinLoop.Effect, acts: Acts, w: World, port: nat, flags: byte, b: nat, i: nat)
    requires OnlyBit(flags, b) && i <= b
    ensures var f := Current(pins, es, Place(port, b));
            && CallsFrom(pins, es, effect, acts, w, port, flags, i) == (if f != 0 then [f] else [])
            && HistoryFrom(pins, es, effect, acts, w, port, flags, i) == if f != 0 then es + acts(f, w) else es
    decreases b - i
  {
    if i < b {
      OnlyOne(pins, es, effect, acts, w, port, flags, b, i + 1);
    } else {
      var f := Current(pins, es, Place(port, b));
      NothingToCall(pins, es + acts(f, w), effect, acts, effect(f, w), port, flags, b + 1);
      NothingToCall(pins, es, effect, acts, w, port, flags, b + 1);
    }
  }

  /** A handler that detaches its own pin is called by the first dispatch for that pin, and by no later one. */
  lemma OneShotIsCalledOnce(pins: Pins, es: seq<Event>, effect: PinLoop.Effect, acts: Acts, w: World, u: World, port: nat, flags: byte, pin: nat, b: nat)
    requires OnlyBit(flags, b) && PlaceOf(pins, pin) == Place(port, b)
    requires var f := Current(pins, es, Place(port, b)); f != 0 && acts(f, w) == [Detach(pin)]
    ensures var later := HistoryFrom(pins, es, effect, acts, w, port, flags, 0);
            && CallsFrom(pins, es, effect, acts, w, port, flags, 0) == [Current(pins, es, Place(port, b))]
            && CallsFrom(pins, later, effect, acts, u, port, flags, 0) == []
  {
    OnlyOne(pins, es, effect, acts, w, port, flags, b, 0);
    var later := HistoryFrom(pins, es, effect, acts, w, port, flags, 0);
    DetachedIsNotCalled(pins, es, [], pin, Place(port, b));
    assert es + [Detach(pin)] + [] == later;
    OnlyOne(pins, later, effect, acts, u, port, flags, b, 0);
  }
}
